/** What one exchange does to the peer's store: a node offers what the peer's summary vector lacks
    (src/routing/engine.rs), and the peer puts every copy through its receive guard and route_bundle
    (src/network/client.rs). */
module AntiEntropy {
  import opened Model
  import opened Store
  import opened NodeStep
  import opened NodeFacts
  import opened Network
  import Sending
  import Table
  import Wire

  // ---- The offer -----------------------------------------------------------------------------

  /** What a retry offers a peer that answers with this summary vector. */
  function Offer(local: seq<Bundle>, vector: seq<Uuid>): seq<Bundle> {
    Missing(Filter(local, IsRetryable()), vector)
  }

  /** What the wire makes of a list of bundles. */
  function OverTheWire(bundles: seq<Bundle>): seq<Bundle> {
    if bundles == [] then [] else [Wire.Carry(bundles[0])] + OverTheWire(bundles[1..])
  }

  function CopiesOf(bundles: seq<Bundle>): (r: seq<Bundle>)
    ensures |r| == |bundles|
    ensures forall i :: 0 <= i < |bundles| ==> r[i] == WireCopy(bundles[i])
  {
    if bundles == [] then [] else [WireCopy(bundles[0])] + CopiesOf(bundles[1..])
  }

  lemma {:induction false} OverTheWireAreCopies(bundles: seq<Bundle>)
    requires Plain(bundles)
    ensures OverTheWire(bundles) == CopiesOf(bundles)
  {
    if bundles != [] {
      assert bundles[0] in bundles;
      assert forall b :: b in bundles[1..] ==> b in bundles;
      CarryOfPlain(bundles[0], Wire.Carry(bundles[0]));
      OverTheWireAreCopies(bundles[1..]);
    }
  }

  /** The messages a retry sends to a peer it reaches carry exactly the offer. */
  lemma {:induction false} RetrySendsTheOffer(self: Uuid, peers: seq<Uuid>, local: seq<Bundle>, w: World, m: Message)
    requires Sending.Up(w, self, m.to) && (peers == [] || m.to in peers)
    ensures m.to in w.vectors ==>
              (m in NodeStep.Retry(self, peers, local, w).1 <==> m.bundle in Offer(local, w.vectors[m.to]))
    ensures m.to !in w.vectors ==> (m in NodeStep.Retry(self, peers, local, w).1 <==> m.bundle in Offer(local, []))
  {
    Sending.RetrySendsExactly(self, peers, local, w, m);
  }

  // ---- One copy ------------------------------------------------------------------------------

  /** A node that receives this mints an ACK. */
  predicate MintsFor(self: Uuid, b: Bundle) {
    b.kind.Data? && b.destination.id == self
  }

  /** The slots a bundle can take at the peer: two at a Data bundle's destination. */
  function Slots(self: Uuid, offered: seq<Bundle>): nat {
    if offered == [] then 0
    else Slots(self, offered[..|offered| - 1]) + (if MintsFor(self, offered[|offered| - 1]) then 2 else 1)
  }

  /** What receiving `c` adds, up to status: nothing for acknowledged Data, else the copy, and at its destination the
      ACK minted for it. */
  function Added(self: Uuid, s: seq<Bundle>, c: Bundle, w: World): (r: seq<Bundle>)
    ensures |r| <= if MintsFor(self, c) then 2 else 1
  {
    if c.kind.Data? && HasAck(s, c.id) then []
    else [c] + (if MintsFor(self, c) then [NewAck(c, w.freshId, w.now)] else [])
  }

  /** What receiving `c` leaves: all but what an ACK names. */
  function Left(s: seq<Bundle>, c: Bundle): seq<Bundle> {
    if c.kind.Ack? then Without(s, c.kind.ackBundleId) else s
  }

  predicate AllCurrent(s: seq<Bundle>, now: int) {
    forall x :: x in s ==> !IsExpired(x, now)
  }

  /** A copy that meets room, no rival ACK and no expiry. */
  predicate Welcome(self: Uuid, s: seq<Bundle>, c: Bundle, w: World, capacity: nat) {
    && Acceptable(self, s, c, w, capacity)
    && AllCurrent(s, w.now) && !IsExpired(c, w.now)
    && |s| + (if MintsFor(self, c) then 2 else 1) <= capacity
    && (c.kind.Ack? ==> !HasAck(s, c.kind.ackBundleId))
    && (MintsFor(self, c) ==> !HasAck(s, c.id))
  }

  lemma {:induction false} ReceivesAnAck(self: Uuid, peers: seq<Uuid>, s: seq<Bundle>, c: Bundle, w: World,
                                         capacity: nat)
    returns (y: Bundle)
    requires Welcome(self, s, c, w, capacity) && c.kind.Ack?
    ensures RouteAck(self, peers, s, c, w, capacity).store == Left(s, c) + [y] && Core(y) == c
  {
    var rest := Without(s, c.kind.ackBundleId);
    WithoutFacts(s, c.kind.ackBundleId);
    AllUnexpired(rest, w.now);
    assert !HasAck(rest, c.kind.ackBundleId) && !Has(rest, c.id);
    assert AbsorbAck(s, c, w.now, capacity) == (rest + [c], true);
    if self == c.destination.id {
      y := c.(status := Delivered);
      UpsertLast(rest, c, y, w.now, capacity);
    } else {
      AckRelayStore(self, peers, s, c, w, capacity);
      y := RouteAck(self, peers, s, c, w, capacity).bundle;
    }
  }

  lemma {:induction false} ReceivesItsData(self: Uuid, peers: seq<Uuid>, s: seq<Bundle>, c: Bundle, w: World,
                                           capacity: nat)
    returns (x: Bundle, y: Bundle)
    requires Welcome(self, s, c, w, capacity) && MintsFor(self, c)
    requires !IsExpired(NewAck(c, w.freshId, w.now), w.now)
    ensures RouteAtDestination(self, peers, s, c, w, capacity).store == s + [x, y]
    ensures Core(x) == c && Core(y) == NewAck(c, w.freshId, w.now)
  {
    x := c.(status := Delivered);
    AllUnexpired(s, w.now);
    assert Save(s, x, w.now, capacity) == (s + [x], true);
    AllUnexpired(s + [x], w.now);
    var ack := NewAck(c, w.freshId, w.now);
    assert Save(s + [x], ack, w.now, capacity).1;
    MintedStore(self, peers, s, c, w, capacity);
    var o := RouteAtDestination(self, peers, s, c, w, capacity);
    y :| Core(y) == ack && o.store == s + [x] + [y];
    assert s + [x] + [y] == s + [x, y];
  }

  lemma {:induction false} RelaysData(self: Uuid, peers: seq<Uuid>, s: seq<Bundle>, c: Bundle, w: World,
                                      capacity: nat)
    returns (tail: seq<Bundle>)
    requires Welcome(self, s, c, w, capacity) && c.kind.Data? && !MintsFor(self, c)
    ensures RouteAtRelay(self, peers, s, c, w, capacity).store == s + tail
    ensures SameUpToStatus(Added(self, s, c, w), tail)
  {
    AllUnexpired(s, w.now);
    DataRelayStore(self, peers, s, c, w, capacity);
    tail := if HasAck(s, c.id) then [] else [RouteAtRelay(self, peers, s, c, w, capacity).bundle];
    assert s + [] == s;
  }

  /** Receiving one copy: what it leaves, then what it adds. */
  lemma {:induction false} ReceivesOne(self: Uuid, peers: seq<Uuid>, s: seq<Bundle>, c: Bundle, w: World,
                                       capacity: nat)
    returns (tail: seq<Bundle>)
    requires Welcome(self, s, c, w, capacity)
    requires MintsFor(self, c) ==> !IsExpired(NewAck(c, w.freshId, w.now), w.now)
    ensures NodeStep.Receive(self, peers, s, c, w, capacity).store == Left(s, c) + tail
    ensures SameUpToStatus(Added(self, s, c, w), tail)
  {
    if c.kind.Ack? {
      var y := ReceivesAnAck(self, peers, s, c, w, capacity);
      tail := [y];
    } else if MintsFor(self, c) {
      var x, y := ReceivesItsData(self, peers, s, c, w, capacity);
      tail := [x, y];
    } else {
      tail := RelaysData(self, peers, s, c, w, capacity);
    }
  }

  // ---- A whole offer -------------------------------------------------------------------------

  /** How the offered bundles stand to the peer's and the node's own; the invariant of the network gives this. */
  predicate Compatible(self: Uuid, s: seq<Bundle>, mine: seq<Bundle>, offered: seq<Bundle>) {
    && Plain(offered) && Distinct(offered)
    && (forall b :: b in offered ==> b in mine && !Has(s, b.id) && b.source.id != b.destination.id)
    && (forall b :: b in offered ==> NamesData(b, s) && NamesNone(b, mine) && !Rivalled(b, s) && !Rivalled(b, offered))
    && (forall b :: b in offered && MintsFor(self, b) ==> !HasAck(s, b.id))
  }

  /** What an ACK names is Data. */
  predicate NamesData(b: Bundle, s: seq<Bundle>) {
    forall x :: x in s && IsAckFor(b, x.id) ==> x.kind.Data?
  }

  predicate NamesNone(b: Bundle, s: seq<Bundle>) {
    forall x :: x in s ==> !IsAckFor(b, x.id)
  }

  /** Another ACK of the list names the same Data. */
  predicate Rivalled(b: Bundle, s: seq<Bundle>) {
    b.kind.Ack? && exists x :: x in s && IsAckFor(x, b.kind.ackBundleId) && x.id != b.id
  }

  /** The random ids the peer draws are new and different. */
  predicate FreshIds(s: seq<Bundle>, offered: seq<Bundle>, worlds: nat -> World) {
    forall k :: 0 <= k < |offered| ==> FreshFor(s, offered, worlds(k).freshId) && !DrawnBefore(worlds, k)
  }

  predicate FreshFor(s: seq<Bundle>, offered: seq<Bundle>, id: Uuid) {
    !Has(s, id) && !Has(offered, id) && !HasAck(offered, id)
  }

  predicate DrawnBefore(worlds: nat -> World, k: nat) {
    exists j :: 0 <= j < k && worlds(j).freshId == worlds(k).freshId
  }

  /** Nothing expires while the first `n` copies are received, and every offered bundle was made before. */
  predicate Timely(s: seq<Bundle>, offered: seq<Bundle>, worlds: nat -> World, n: nat) {
    forall k :: 0 <= k < n ==> TimelyAt(s, offered, worlds(k).now)
  }

  predicate TimelyAt(s: seq<Bundle>, offered: seq<Bundle>, now: int) {
    AllCurrent(s, now) && forall b :: b in offered ==> Live(b, now) && b.timestamp <= now
  }

  function Unnamed(offered: seq<Bundle>): Bundle -> bool {
    (b: Bundle) => !HasAck(offered, b.id)
  }

  /** What the whole offer adds, up to status. */
  function Gained(self: Uuid, s: seq<Bundle>, offered: seq<Bundle>, worlds: nat -> World): seq<Bundle> {
    if offered == [] then []
    else
      var k := |offered| - 1;
      Gained(self, s, offered[..k], worlds) + Added(self, s, WireCopy(offered[k]), worlds(k))
  }

  lemma {:induction false} GainedSize(self: Uuid, s: seq<Bundle>, offered: seq<Bundle>, worlds: nat -> World)
    ensures |Gained(self, s, offered, worlds)| <= Slots(self, offered)
  {
    if offered != [] {
      var k := |offered| - 1;
      GainedSize(self, s, offered[..k], worlds);
      assert MintsFor(self, WireCopy(offered[k])) == MintsFor(self, offered[k]);
    }
  }

  predicate AddsAt(self: Uuid, s: seq<Bundle>, offered: seq<Bundle>, worlds: nat -> World, i: nat, x: Bundle)
    requires i < |offered|
  {
    x in Added(self, s, WireCopy(offered[i]), worlds(i))
  }

  lemma {:induction false} GainedMembers(self: Uuid, s: seq<Bundle>, offered: seq<Bundle>, worlds: nat -> World,
                                         x: Bundle)
    ensures x in Gained(self, s, offered, worlds) <==>
              exists i :: 0 <= i < |offered| && AddsAt(self, s, offered, worlds, i, x)
  {
    if offered != [] {
      var k := |offered| - 1;
      var init := offered[..k];
      GainedMembers(self, s, init, worlds, x);
      forall i | 0 <= i < k ensures AddsAt(self, s, init, worlds, i, x) == AddsAt(self, s, offered, worlds, i, x) {
      }
      assert AddsAt(self, s, offered, worlds, k, x) == (x in Added(self, s, WireCopy(offered[k]), worlds(k)));
    }
  }

  // ---- Ids and ACKs of the store after an offer ----------------------------------------------

  /** The copy of an offered bundle of this id is stored: it is not Data the peer has an ACK for. */
  predicate Taken(s: seq<Bundle>, offered: seq<Bundle>, id: Uuid) {
    exists b :: b in offered && b.id == id && !Blocked(s, b)
  }

  predicate MintedAt(self: Uuid, s: seq<Bundle>, offered: seq<Bundle>, worlds: nat -> World, k: nat, id: Uuid)
    requires k < |offered|
  {
    MintsFor(self, offered[k]) && !HasAck(s, offered[k].id) && worlds(k).freshId == id
  }

  predicate Minted(self: Uuid, s: seq<Bundle>, offered: seq<Bundle>, worlds: nat -> World, id: Uuid) {
    exists k :: 0 <= k < |offered| && MintedAt(self, s, offered, worlds, k, id)
  }

  lemma {:induction false} GainedIds(self: Uuid, s: seq<Bundle>, offered: seq<Bundle>, worlds: nat -> World, id: Uuid)
    ensures Has(Gained(self, s, offered, worlds), id) <==>
              Taken(s, offered, id) || Minted(self, s, offered, worlds, id)
  {
    var g := Gained(self, s, offered, worlds);
    if Has(g, id) {
      var x :| x in g && x.id == id;
      GainedMembers(self, s, offered, worlds, x);
      var i :| 0 <= i < |offered| && AddsAt(self, s, offered, worlds, i, x);
      assert offered[i] in offered;
      if x != WireCopy(offered[i]) {
        assert MintedAt(self, s, offered, worlds, i, id);
      }
    }
    if Taken(s, offered, id) {
      var b :| b in offered && b.id == id && !Blocked(s, b);
      var i :| 0 <= i < |offered| && offered[i] == b;
      GainedMembers(self, s, offered, worlds, WireCopy(b));
      assert AddsAt(self, s, offered, worlds, i, WireCopy(b));
    }
    if Minted(self, s, offered, worlds, id) {
      var k :| 0 <= k < |offered| && MintedAt(self, s, offered, worlds, k, id);
      var ack := NewAck(WireCopy(offered[k]), id, worlds(k).now);
      GainedMembers(self, s, offered, worlds, ack);
      assert AddsAt(self, s, offered, worlds, k, ack);
    }
  }

  lemma {:induction false} GainedAcks(self: Uuid, s: seq<Bundle>, offered: seq<Bundle>, worlds: nat -> World, id: Uuid)
    requires HasAck(Gained(self, s, offered, worlds), id)
    ensures HasAck(offered, id) || exists b :: b in offered && MintsFor(self, b) && b.id == id
  {
    var g := Gained(self, s, offered, worlds);
    var x :| x in g && IsAckFor(x, id);
    GainedMembers(self, s, offered, worlds, x);
    var i :| 0 <= i < |offered| && AddsAt(self, s, offered, worlds, i, x);
    assert offered[i] in offered;
    if x == WireCopy(offered[i]) {
      assert IsAckFor(offered[i], id);
    }
  }

  /** The peer's store after the offer, the statuses of what came in left open. */
  predicate Result(self: Uuid, s: seq<Bundle>, offered: seq<Bundle>, worlds: nat -> World, t: seq<Bundle>,
                   tail: seq<Bundle>) {
    t == Filter(s, Unnamed(offered)) + tail && SameUpToStatus(Gained(self, s, offered, worlds), tail)
  }

  lemma {:induction false} SameIds(g: seq<Bundle>, tail: seq<Bundle>, id: Uuid)
    requires SameUpToStatus(g, tail)
    ensures Has(tail, id) <==> Has(g, id)
    ensures HasAck(tail, id) <==> HasAck(g, id)
  {
    SameKinds(g, tail, id);
    forall i | 0 <= i < |g| ensures g[i].id == tail[i].id {
      SameCore(g[i], tail[i]);
    }
    if Has(g, id) {
      var i :| 0 <= i < |g| && g[i].id == id;
      assert tail[i] in tail;
    }
    if Has(tail, id) {
      var i :| 0 <= i < |tail| && tail[i].id == id;
      assert g[i] in g;
    }
  }

  /** The ids afterwards: the peer's, without what offered ACKs name, with what it took and the ACKs it minted. */
  lemma {:induction false} ResultIds(self: Uuid, s: seq<Bundle>, offered: seq<Bundle>, worlds: nat -> World,
                                     t: seq<Bundle>, tail: seq<Bundle>, id: Uuid)
    requires Result(self, s, offered, worlds, t, tail)
    ensures Has(t, id) <==>
              (Has(s, id) && !HasAck(offered, id)) || Taken(s, offered, id) || Minted(self, s, offered, worlds, id)
  {
    var kept := Filter(s, Unnamed(offered));
    assert forall x :: x in t <==> x in kept || x in tail;
    SameIds(Gained(self, s, offered, worlds), tail, id);
    GainedIds(self, s, offered, worlds, id);
    if Has(s, id) && !HasAck(offered, id) {
      var x :| x in s && x.id == id;
      assert x in kept;
    }
  }

  lemma {:induction false} ResultAcks(self: Uuid, s: seq<Bundle>, offered: seq<Bundle>, worlds: nat -> World,
                                      t: seq<Bundle>, tail: seq<Bundle>, id: Uuid)
    requires Result(self, s, offered, worlds, t, tail)
    ensures HasAck(t, id) ==>
              HasAck(s, id) || HasAck(offered, id) || exists b :: b in offered && MintsFor(self, b) && b.id == id
    ensures HasAck(s, id) && (forall b :: b in offered ==> NamesData(b, s)) ==> HasAck(t, id)
  {
    var kept := Filter(s, Unnamed(offered));
    assert forall x :: x in t <==> x in kept || x in tail;
    SameIds(Gained(self, s, offered, worlds), tail, id);
    if HasAck(Gained(self, s, offered, worlds), id) {
      GainedAcks(self, s, offered, worlds, id);
    }
    if HasAck(s, id) && forall b :: b in offered ==> NamesData(b, s) {
      var x :| x in s && IsAckFor(x, id);
      assert x in kept;
    }
  }

  // ---- Receiving the whole offer -------------------------------------------------------------

  lemma {:induction false} Prefix(self: Uuid, s: seq<Bundle>, mine: seq<Bundle>, offered: seq<Bundle>,
                                  worlds: nat -> World, n: nat, k: nat)
    requires Compatible(self, s, mine, offered) && FreshIds(s, offered, worlds) && Timely(s, offered, worlds, n)
    requires k < |offered|
    ensures Compatible(self, s, mine, offered[..k]) && FreshIds(s, offered[..k], worlds)
    ensures Timely(s, offered[..k], worlds, n)
  {
    assert forall b :: b in offered[..k] ==> b in offered;
    forall b | b in offered[..k]
      ensures NamesData(b, s) && NamesNone(b, mine) && !Rivalled(b, s) && !Rivalled(b, offered[..k])
    {
      assert !Rivalled(b, offered);
    }
    forall j | 0 <= j < k ensures FreshFor(s, offered[..k], worlds(j).freshId) && !DrawnBefore(worlds, j) {
      assert FreshFor(s, offered, worlds(j).freshId);
    }
    forall j | 0 <= j < n ensures TimelyAt(s, offered[..k], worlds(j).now) {
      assert TimelyAt(s, offered, worlds(j).now);
    }
  }

  /** The next bundle of an offer is new to what came before it. */
  lemma {:induction false} NextIsNew(self: Uuid, s: seq<Bundle>, mine: seq<Bundle>, offered: seq<Bundle>,
                                     worlds: nat -> World, k: nat, id: Uuid)
    requires Compatible(self, s, mine, offered) && FreshIds(s, offered, worlds) && k < |offered|
    requires id == offered[k].id || id == worlds(k).freshId
    ensures !Has(s, id) && !Taken(s, offered[..k], id) && !Minted(self, s, offered[..k], worlds, id)
  {
    assert offered[k] in offered && FreshFor(s, offered, worlds(k).freshId);
    forall b | b in offered[..k] ensures b.id != id {
      assert b in offered;
    }
    forall j | 0 <= j < k ensures worlds(j).freshId != id {
      assert FreshFor(s, offered, worlds(j).freshId) && !DrawnBefore(worlds, k);
    }
    assert forall j :: 0 <= j < k ==> !MintedAt(self, s, offered[..k], worlds, j, id);
  }

  /** No ACK for what the next bundle names, or for Data it brings home, is in the store it meets. */
  lemma {:induction false} NextMeetsNoAck(self: Uuid, s: seq<Bundle>, mine: seq<Bundle>, offered: seq<Bundle>,
                                          worlds: nat -> World, k: nat, t: seq<Bundle>, tail: seq<Bundle>)
    requires Compatible(self, s, mine, offered) && k < |offered|
    requires Result(self, s, offered[..k], worlds, t, tail)
    ensures var b := offered[k];
            && (b.kind.Ack? ==> !HasAck(t, b.kind.ackBundleId))
            && (b.kind.Data? ==> (HasAck(t, b.id) <==> HasAck(s, b.id)))
  {
    var b, init := offered[k], offered[..k];
    assert b in offered && forall x :: x in init ==> x in offered;
    var id := if b.kind.Ack? then b.kind.ackBundleId else b.id;
    forall x | x in init ensures !IsAckFor(x, id) && x.id != b.id {
      assert NamesNone(x, mine) && !Rivalled(b, offered);
    }
    forall x | x in s && b.kind.Ack? ensures !IsAckFor(x, id) {
      assert !Rivalled(b, s);
    }
    forall x | x in init && b.kind.Ack? ensures x.id != id {
      assert NamesNone(b, mine);
    }
    ResultAcks(self, s, init, worlds, t, tail, id);
  }

  lemma {:induction false} AddedIsCurrent(self: Uuid, s: seq<Bundle>, b: Bundle, w: World, now: int)
    requires Live(b, now) && b.timestamp <= w.now
    ensures AllCurrent(Added(self, s, WireCopy(b), w), now)
  {
    TombstoneOrder(b, w.freshId, w.now, now);
  }

  lemma {:induction false} GainedIsCurrent(self: Uuid, s: seq<Bundle>, offered: seq<Bundle>, worlds: nat -> World,
                                           n: nat, now: int)
    requires |offered| <= n && Timely(s, offered, worlds, n) && TimelyAt(s, offered, now)
    ensures AllCurrent(Gained(self, s, offered, worlds), now)
  {
    forall x | x in Gained(self, s, offered, worlds) ensures !IsExpired(x, now) {
      GainedMembers(self, s, offered, worlds, x);
      var i :| 0 <= i < |offered| && AddsAt(self, s, offered, worlds, i, x);
      assert offered[i] in offered && TimelyAt(s, offered, worlds(i).now);
      AddedIsCurrent(self, s, offered[i], worlds(i), now);
    }
  }

  lemma {:induction false} ResultIsCurrent(self: Uuid, s: seq<Bundle>, offered: seq<Bundle>, worlds: nat -> World,
                                           t: seq<Bundle>, tail: seq<Bundle>, n: nat, now: int)
    requires Result(self, s, offered, worlds, t, tail)
    requires |offered| <= n && Timely(s, offered, worlds, n) && TimelyAt(s, offered, now)
    ensures AllCurrent(t, now) && |t| <= |s| + Slots(self, offered)
  {
    var g := Gained(self, s, offered, worlds);
    GainedSize(self, s, offered, worlds);
    GainedIsCurrent(self, s, offered, worlds, n, now);
    forall x | x in tail ensures !IsExpired(x, now) {
      var i :| 0 <= i < |tail| && tail[i] == x;
      assert g[i] in g;
      assert x.timestamp == Core(g[i]).timestamp && x.ttl == Core(g[i]).ttl by { assert Core(x) == Core(g[i]); }
    }
    assert forall x :: x in t <==> x in Filter(s, Unnamed(offered)) || x in tail;
  }

  lemma {:induction false} SplitResult(s: seq<Bundle>, offered: seq<Bundle>, tail: seq<Bundle>, c: Bundle)
    requires offered != [] && c == WireCopy(offered[|offered| - 1])
    requires c.kind.Ack? ==> !Has(tail, c.kind.ackBundleId)
    ensures Left(Filter(s, Unnamed(offered[..|offered| - 1])) + tail, c) == Filter(s, Unnamed(offered)) + tail
  {
    var init, last := offered[..|offered| - 1], offered[|offered| - 1];
    assert forall x :: x in offered <==> x in init || x == last;
    forall x: Bundle
      ensures Unnamed(offered)(x) <==> Unnamed(init)(x) && !IsAckFor(last, x.id)
    {
    }
    if c.kind.Ack? {
      var id := c.kind.ackBundleId;
      FilterConcat(Filter(s, Unnamed(init)), tail, OtherThan(id));
      FilterTwice(s, Unnamed(init), OtherThan(id), Unnamed(offered));
      WithoutFacts(tail, id);
    } else {
      FilterAgrees(s, Unnamed(init), Unnamed(offered));
    }
  }

  lemma {:induction false} FilterConcat(s: seq<Bundle>, t: seq<Bundle>, keep: Bundle -> bool)
    ensures Filter(s + t, keep) == Filter(s, keep) + Filter(t, keep)
  {
    if s == [] {
      assert s + t == t;
    } else {
      assert (s + t)[1..] == s[1..] + t;
      FilterConcat(s[1..], t, keep);
    }
  }

  lemma {:induction false} JoinTails(g: seq<Bundle>, h: seq<Bundle>, tail: seq<Bundle>, more: seq<Bundle>)
    requires SameUpToStatus(g, tail) && SameUpToStatus(h, more)
    ensures SameUpToStatus(g + h, tail + more)
  {
  }

  /** The next copy is welcome to the store that the copies before it left. */
  lemma {:induction false} NextIsWelcome(self: Uuid, s: seq<Bundle>, mine: seq<Bundle>, offered: seq<Bundle>,
                                         worlds: nat -> World, t: seq<Bundle>, tail: seq<Bundle>, capacity: nat,
                                         n: nat)
    requires Compatible(self, s, mine, offered) && FreshIds(s, offered, worlds) && Timely(s, offered, worlds, n)
    requires 0 < |offered| <= n && |s| + Slots(self, offered) <= capacity
    requires Result(self, s, offered[..|offered| - 1], worlds, t, tail) && NodeInv(self, t, capacity)
    ensures var k := |offered| - 1;
            && Welcome(self, t, WireCopy(offered[k]), worlds(k), capacity)
            && Added(self, t, WireCopy(offered[k]), worlds(k)) == Added(self, s, WireCopy(offered[k]), worlds(k))
            && (offered[k].kind.Ack? ==> !Has(tail, offered[k].kind.ackBundleId))
  {
    var k := |offered| - 1;
    var b, w, init := offered[k], worlds(k), offered[..k];
    assert b in offered && FreshFor(s, offered, w.freshId) && TimelyAt(s, offered, w.now);
    Prefix(self, s, mine, offered, worlds, n, k);
    NextIsNew(self, s, mine, offered, worlds, k, b.id);
    NextIsNew(self, s, mine, offered, worlds, k, w.freshId);
    ResultIds(self, s, init, worlds, t, tail, b.id);
    ResultIds(self, s, init, worlds, t, tail, w.freshId);
    NextMeetsNoAck(self, s, mine, offered, worlds, k, t, tail);
    assert TimelyAt(s, init, w.now);
    ResultIsCurrent(self, s, init, worlds, t, tail, n, w.now);
    if b.kind.Ack? {
      NamedIsNotGained(self, s, mine, offered, worlds, k);
      SameIds(Gained(self, s, init, worlds), tail, b.kind.ackBundleId);
    }
  }

  /** Nothing gained so far is what the next bundle acknowledges. */
  lemma {:induction false} NamedIsNotGained(self: Uuid, s: seq<Bundle>, mine: seq<Bundle>, offered: seq<Bundle>,
                                            worlds: nat -> World, k: nat)
    requires Compatible(self, s, mine, offered) && FreshIds(s, offered, worlds) && k < |offered|
    requires offered[k].kind.Ack?
    ensures !Has(Gained(self, s, offered[..k], worlds), offered[k].kind.ackBundleId)
  {
    var b, id := offered[k], offered[k].kind.ackBundleId;
    assert b in offered && NamesNone(b, mine);
    forall x | x in offered[..k] ensures x.id != id {
      assert x in offered;
    }
    forall j | 0 <= j < k ensures worlds(j).freshId != id {
      assert FreshFor(s, offered, worlds(j).freshId);
    }
    assert forall j :: 0 <= j < k ==> !MintedAt(self, s, offered[..k], worlds, j, id);
    GainedIds(self, s, offered[..k], worlds, id);
  }

  lemma {:induction false} ReceivesNext(self: Uuid, peers: seq<Uuid>, s: seq<Bundle>, mine: seq<Bundle>,
                                        offered: seq<Bundle>, worlds: nat -> World, capacity: nat, n: nat,
                                        t: seq<Bundle>, before: seq<Bundle>)
    returns (tail: seq<Bundle>)
    requires Compatible(self, s, mine, offered) && FreshIds(s, offered, worlds) && Timely(s, offered, worlds, n)
    requires 0 < |offered| <= n && |s| + Slots(self, offered) <= capacity
    requires Result(self, s, offered[..|offered| - 1], worlds, t, before) && NodeInv(self, t, capacity)
    ensures var k := |offered| - 1;
            var t' := NodeStep.Receive(self, peers, t, WireCopy(offered[k]), worlds(k), capacity).store;
            Result(self, s, offered, worlds, t', tail) && NodeInv(self, t', capacity)
  {
    var k := |offered| - 1;
    var c, w := WireCopy(offered[k]), worlds(k);
    NextIsWelcome(self, s, mine, offered, worlds, t, before, capacity, n);
    assert offered[k] in offered && TimelyAt(s, offered, w.now);
    AddedIsCurrent(self, s, offered[k], w, w.now);
    var more := ReceivesOne(self, peers, t, c, w, capacity);
    tail := before + more;
    JoinResult(self, s, offered, worlds, t, before, more, Left(t, c) + more);
    assert NodeInv(self, NodeStep.Receive(self, peers, t, c, w, capacity).store, capacity) by {
      RouteIsLawful(self, peers, t, c, w, capacity);
    }
  }

  lemma {:induction false} JoinResult(self: Uuid, s: seq<Bundle>, offered: seq<Bundle>, worlds: nat -> World,
                                      t: seq<Bundle>, before: seq<Bundle>, more: seq<Bundle>, t': seq<Bundle>)
    requires offered != [] && Result(self, s, offered[..|offered| - 1], worlds, t, before)
    requires offered[|offered| - 1].kind.Ack? ==> !Has(before, offered[|offered| - 1].kind.ackBundleId)
    requires SameUpToStatus(Added(self, s, WireCopy(offered[|offered| - 1]), worlds(|offered| - 1)), more)
    requires t' == Left(t, WireCopy(offered[|offered| - 1])) + more
    ensures Result(self, s, offered, worlds, t', before + more)
  {
    var k := |offered| - 1;
    assert t' == Filter(s, Unnamed(offered)) + (before + more) by {
      SplitResult(s, offered, before, WireCopy(offered[k]));
      Regroup(Filter(s, Unnamed(offered)), before, more);
    }
    JoinTails(Gained(self, s, offered[..k], worlds), Added(self, s, WireCopy(offered[k]), worlds(k)), before, more);
  }

  lemma {:induction false} ReceiveAllStep(self: Uuid, peers: seq<Uuid>, s: seq<Bundle>, offered: seq<Bundle>,
                                          worlds: nat -> World, capacity: nat)
    requires offered != []
    ensures var k := |offered| - 1;
            var t := ReceiveAll(self, peers, s, CopiesOf(offered[..k]), worlds, capacity).0;
            ReceiveAll(self, peers, s, CopiesOf(offered), worlds, capacity).0
            == NodeStep.Receive(self, peers, t, WireCopy(offered[k]), worlds(k), capacity).store
  {
    var k := |offered| - 1;
    assert CopiesOf(offered)[..k] == CopiesOf(offered[..k]);
  }

  /** The peer's store after receiving every copy: its own bundles, in order, without what offered ACKs name, then in
      the order of the offer each copy it took, with the ACK it minted behind Data that is home. */
  lemma {:induction false} ReceivesOffer(self: Uuid, peers: seq<Uuid>, s: seq<Bundle>, mine: seq<Bundle>,
                                         offered: seq<Bundle>, worlds: nat -> World, capacity: nat, n: nat)
    returns (tail: seq<Bundle>)
    requires NodeInv(self, s, capacity) && Compatible(self, s, mine, offered) && FreshIds(s, offered, worlds)
    requires |offered| <= n && Timely(s, offered, worlds, n) && |s| + Slots(self, offered) <= capacity
    ensures var t := ReceiveAll(self, peers, s, CopiesOf(offered), worlds, capacity).0;
            Result(self, s, offered, worlds, t, tail) && NodeInv(self, t, capacity)
    decreases |offered|
  {
    if offered == [] {
      tail := [];
      FilterAll(s, Unnamed([]));
      assert s + [] == s;
    } else {
      var init := offered[..|offered| - 1];
      Prefix(self, s, mine, offered, worlds, n, |init|);
      var before := ReceivesOffer(self, peers, s, mine, init, worlds, capacity, n);
      var t := ReceiveAll(self, peers, s, CopiesOf(init), worlds, capacity).0;
      tail := ReceivesNext(self, peers, s, mine, offered, worlds, capacity, n, t, before);
      ReceiveAllStep(self, peers, s, offered, worlds, capacity);
    }
  }

  // ---- The exchange --------------------------------------------------------------------------

  /** An exchange that can run its course: the peer, node `self` with store `s`, answers with its real vector, and the
      node with store `mine` offers what is missing. */
  predicate Exchange(self: Uuid, s: seq<Bundle>, mine: seq<Bundle>, worlds: nat -> World, capacity: nat) {
    var offered := Offer(mine, Table.Ids(s));
    && NodeInv(self, s, capacity) && Compatible(self, s, Filter(mine, IsRetryable()), offered)
    && FreshIds(s, offered, worlds) && Timely(s, offered, worlds, |offered|)
    && |s| + Slots(self, offered) <= capacity
  }

  /** The peer's store afterwards. */
  function AfterExchange(self: Uuid, peers: seq<Uuid>, s: seq<Bundle>, mine: seq<Bundle>, worlds: nat -> World,
                         capacity: nat): seq<Bundle>
  {
    ReceiveAll(self, peers, s, OverTheWire(Offer(mine, Table.Ids(s))), worlds, capacity).0
  }

  lemma {:induction false} OfferIsWhatIsMissing(mine: seq<Bundle>, s: seq<Bundle>)
    ensures forall b :: b in Offer(mine, Table.Ids(s)) <==>
              b in mine && (b.status == Pending || b.status == InTransit) && !Has(s, b.id)
  {
    forall b: Bundle ensures b.id in Table.Ids(s) <==> Has(s, b.id) {
      Table.IdsMembers(s, b.id);
    }
  }

  /** An exchange leaves exactly this list at the peer, up to the statuses of what came in. */
  lemma {:induction false} ExchangeResult(self: Uuid, peers: seq<Uuid>, s: seq<Bundle>, mine: seq<Bundle>,
                                          worlds: nat -> World, capacity: nat)
    returns (tail: seq<Bundle>)
    requires Exchange(self, s, mine, worlds, capacity)
    ensures var after := AfterExchange(self, peers, s, mine, worlds, capacity);
            Result(self, s, Offer(mine, Table.Ids(s)), worlds, after, tail) && NodeInv(self, after, capacity)
  {
    var offered := Offer(mine, Table.Ids(s));
    OverTheWireAreCopies(offered);
    tail := ReceivesOffer(self, peers, s, Filter(mine, IsRetryable()), offered, worlds, capacity, |offered|);
  }

  /** The ids at the peer afterwards: its own without the Data that offered ACKs displace, the offered ones without the
      Data it has ACKs for, and the ACKs it minted for Data that is home. */
  lemma {:induction false} ExchangeIds(self: Uuid, peers: seq<Uuid>, s: seq<Bundle>, mine: seq<Bundle>,
                                       worlds: nat -> World, capacity: nat, id: Uuid)
    requires Exchange(self, s, mine, worlds, capacity)
    ensures var offered := Offer(mine, Table.Ids(s));
            Has(AfterExchange(self, peers, s, mine, worlds, capacity), id) <==>
              (Has(s, id) && !HasAck(offered, id)) || Taken(s, offered, id) || Minted(self, s, offered, worlds, id)
  {
    var tail := ExchangeResult(self, peers, s, mine, worlds, capacity);
    ResultIds(self, s, Offer(mine, Table.Ids(s)), worlds, AfterExchange(self, peers, s, mine, worlds, capacity), tail,
              id);
  }

  /** No offered ACK names a bundle of the peer, no ACK of the peer names offered Data, and no offered Data is home. */
  predicate Unrelated(self: Uuid, s: seq<Bundle>, offered: seq<Bundle>) {
    && (forall x :: x in s ==> !HasAck(offered, x.id))
    && (forall b :: b in offered ==> !Blocked(s, b) && !MintsFor(self, b))
  }

  /** The peer ends with its own ids and those of the retryable bundles of the other node. */
  ghost predicate Union(s: seq<Bundle>, mine: seq<Bundle>, after: seq<Bundle>) {
    forall id :: Has(after, id) <==> Has(s, id) || Has(Filter(mine, IsRetryable()), id)
  }

  lemma {:induction false} OfferedOrHeld(s: seq<Bundle>, mine: seq<Bundle>, id: Uuid)
    ensures Has(s, id) || Has(Filter(mine, IsRetryable()), id) <==>
              Has(s, id) || Has(Offer(mine, Table.Ids(s)), id)
  {
    OfferIsWhatIsMissing(mine, s);
    if Has(Filter(mine, IsRetryable()), id) && !Has(s, id) {
      var b :| b in Filter(mine, IsRetryable()) && b.id == id;
      assert b in Offer(mine, Table.Ids(s));
    }
    if Has(Offer(mine, Table.Ids(s)), id) {
      var b :| b in Offer(mine, Table.Ids(s)) && b.id == id;
      assert b in Filter(mine, IsRetryable());
    }
  }

  /** It does if and only if the two stores are unrelated. */
  lemma {:induction false} UnionIff(self: Uuid, peers: seq<Uuid>, s: seq<Bundle>, mine: seq<Bundle>,
                                    worlds: nat -> World, capacity: nat)
    requires Exchange(self, s, mine, worlds, capacity)
    ensures Union(s, mine, AfterExchange(self, peers, s, mine, worlds, capacity))
            <==> Unrelated(self, s, Offer(mine, Table.Ids(s)))
  {
    if Unrelated(self, s, Offer(mine, Table.Ids(s))) {
      UnrelatedGivesUnion(self, peers, s, mine, worlds, capacity);
    }
    if Union(s, mine, AfterExchange(self, peers, s, mine, worlds, capacity)) {
      UnionMeansUnrelated(self, peers, s, mine, worlds, capacity);
    }
  }

  /** The peer ends with the ids of both nodes. */
  ghost predicate FullUnion(s: seq<Bundle>, mine: seq<Bundle>, after: seq<Bundle>) {
    forall id :: Has(after, id) <==> Has(s, id) || Has(mine, id)
  }

  /** What is never offered, Delivered bundles above all, is known to the peer. */
  predicate RestIsKnown(s: seq<Bundle>, mine: seq<Bundle>) {
    forall b :: b in mine && !IsRetryable()(b) ==> Has(s, b.id)
  }

  predicate DrawnIdsNew(s: seq<Bundle>, mine: seq<Bundle>, worlds: nat -> World) {
    forall k :: 0 <= k < |Offer(mine, Table.Ids(s))| ==> !Has(mine, worlds(k).freshId)
  }

  /** It ends with the ids of both nodes if and only if the stores are unrelated and it knows all that is never
      offered. */
  lemma {:induction false} FullUnionIff(self: Uuid, peers: seq<Uuid>, s: seq<Bundle>, mine: seq<Bundle>,
                                        worlds: nat -> World, capacity: nat)
    requires Exchange(self, s, mine, worlds, capacity) && Distinct(mine) && DrawnIdsNew(s, mine, worlds)
    ensures FullUnion(s, mine, AfterExchange(self, peers, s, mine, worlds, capacity))
            <==> Unrelated(self, s, Offer(mine, Table.Ids(s))) && RestIsKnown(s, mine)
  {
    var after := AfterExchange(self, peers, s, mine, worlds, capacity);
    UnionIff(self, peers, s, mine, worlds, capacity);
    if FullUnion(s, mine, after) {
      FullMeansKnown(self, peers, s, mine, worlds, capacity);
    }
    if RestIsKnown(s, mine) {
      SameUnions(s, mine, after);
    }
  }

  lemma {:induction false} FullMeansKnown(self: Uuid, peers: seq<Uuid>, s: seq<Bundle>, mine: seq<Bundle>,
                                          worlds: nat -> World, capacity: nat)
    requires Exchange(self, s, mine, worlds, capacity) && Distinct(mine) && DrawnIdsNew(s, mine, worlds)
    requires FullUnion(s, mine, AfterExchange(self, peers, s, mine, worlds, capacity))
    ensures RestIsKnown(s, mine)
  {
    forall b | b in mine && !IsRetryable()(b) ensures Has(s, b.id) {
      assert Has(mine, b.id);
      if !Has(s, b.id) {
        NeverOfferedStays(self, peers, s, mine, worlds, capacity, b);
      }
    }
  }

  lemma {:induction false} SameUnions(s: seq<Bundle>, mine: seq<Bundle>, after: seq<Bundle>)
    requires RestIsKnown(s, mine)
    ensures FullUnion(s, mine, after) <==> Union(s, mine, after)
  {
    forall id ensures Has(s, id) || Has(mine, id) <==> Has(s, id) || Has(Filter(mine, IsRetryable()), id) {
      KnownOrRetryable(s, mine, id);
    }
  }

  lemma {:induction false} KnownOrRetryable(s: seq<Bundle>, mine: seq<Bundle>, id: Uuid)
    requires RestIsKnown(s, mine)
    ensures Has(s, id) || Has(mine, id) <==> Has(s, id) || Has(Filter(mine, IsRetryable()), id)
  {
    if Has(mine, id) {
      var b :| b in mine && b.id == id;
      assert IsRetryable()(b) ==> b in Filter(mine, IsRetryable());
    }
    if Has(Filter(mine, IsRetryable()), id) {
      var b :| b in Filter(mine, IsRetryable()) && b.id == id;
      assert b in mine;
    }
  }

  /** A bundle that is never offered reaches the peer in no exchange. */
  lemma {:induction false} NeverOfferedStays(self: Uuid, peers: seq<Uuid>, s: seq<Bundle>, mine: seq<Bundle>,
                                             worlds: nat -> World, capacity: nat, b: Bundle)
    requires Exchange(self, s, mine, worlds, capacity) && Distinct(mine) && DrawnIdsNew(s, mine, worlds)
    requires b in mine && !IsRetryable()(b) && !Has(s, b.id)
    ensures !Has(AfterExchange(self, peers, s, mine, worlds, capacity), b.id)
  {
    var offered := Offer(mine, Table.Ids(s));
    ExchangeIds(self, peers, s, mine, worlds, capacity, b.id);
    OfferIsWhatIsMissing(mine, s);
    forall x | x in offered ensures x.id != b.id {
      if x.id == b.id {
        SameId(mine, x, b);
      }
    }
    forall k | 0 <= k < |offered| ensures !MintedAt(self, s, offered, worlds, k, b.id) {
      assert !Has(mine, worlds(k).freshId);
    }
  }

  /** The failing input: the node keeps Data that was delivered to it, and the peer never learns of it. */
  lemma {:induction false} DeliveredStaysUnknown(self: Uuid, peers: seq<Uuid>, x: Bundle, worlds: nat -> World,
                                                 capacity: nat)
    requires x.kind.Data? && x.status == Delivered
    ensures Exchange(self, [], [x], worlds, capacity) && Unrelated(self, [], Offer([x], Table.Ids([])))
    ensures var after := AfterExchange(self, peers, [], [x], worlds, capacity);
            !Has(after, x.id) && !FullUnion([], [x], after)
  {
    FilterNone([x], IsRetryable());
    assert Offer([x], Table.Ids([])) == [];
    ExchangeIds(self, peers, [], [x], worlds, capacity, x.id);
    assert x in [x];
  }

  lemma {:induction false} FilterNone(s: seq<Bundle>, keep: Bundle -> bool)
    requires forall b :: b in s ==> !keep(b)
    ensures Filter(s, keep) == []
  {
    if s != [] {
      assert s[0] in s && forall b :: b in s[1..] ==> b in s;
      FilterNone(s[1..], keep);
    }
  }

  lemma {:induction false} UnrelatedGivesUnion(self: Uuid, peers: seq<Uuid>, s: seq<Bundle>, mine: seq<Bundle>,
                                               worlds: nat -> World, capacity: nat)
    requires Exchange(self, s, mine, worlds, capacity) && Unrelated(self, s, Offer(mine, Table.Ids(s)))
    ensures Union(s, mine, AfterExchange(self, peers, s, mine, worlds, capacity))
  {
    var after := AfterExchange(self, peers, s, mine, worlds, capacity);
    forall id ensures Has(after, id) <==> Has(s, id) || Has(Filter(mine, IsRetryable()), id) {
      ExchangeIds(self, peers, s, mine, worlds, capacity, id);
      OfferedOrHeld(s, mine, id);
      UnrelatedIds(self, s, Offer(mine, Table.Ids(s)), worlds, id);
    }
  }

  lemma {:induction false} UnionMeansUnrelated(self: Uuid, peers: seq<Uuid>, s: seq<Bundle>, mine: seq<Bundle>,
                                               worlds: nat -> World, capacity: nat)
    requires Exchange(self, s, mine, worlds, capacity)
    requires Union(s, mine, AfterExchange(self, peers, s, mine, worlds, capacity))
    ensures Unrelated(self, s, Offer(mine, Table.Ids(s)))
  {
    var offered := Offer(mine, Table.Ids(s));
    forall x | x in s ensures !HasAck(offered, x.id) {
      if HasAck(offered, x.id) {
        DisplacedBreaksUnion(self, peers, s, mine, worlds, capacity, x);
      }
    }
    forall b | b in offered ensures !Blocked(s, b) && !MintsFor(self, b) {
      var k :| 0 <= k < |offered| && offered[k] == b;
      OfferedBreaksUnion(self, peers, s, mine, worlds, capacity, k);
    }
  }

  lemma {:induction false} UnrelatedIds(self: Uuid, s: seq<Bundle>, offered: seq<Bundle>, worlds: nat -> World,
                                        id: Uuid)
    requires Unrelated(self, s, offered)
    ensures !Minted(self, s, offered, worlds, id)
    ensures Has(s, id) ==> !HasAck(offered, id)
    ensures Taken(s, offered, id) <==> Has(offered, id)
  {
    if Has(offered, id) {
      var b :| b in offered && b.id == id;
      assert !Blocked(s, b);
    }
    forall k | 0 <= k < |offered| ensures !MintedAt(self, s, offered, worlds, k, id) {
      assert offered[k] in offered;
    }
  }

  lemma {:induction false} DisplacedBreaksUnion(self: Uuid, peers: seq<Uuid>, s: seq<Bundle>, mine: seq<Bundle>,
                                                worlds: nat -> World, capacity: nat, x: Bundle)
    requires Exchange(self, s, mine, worlds, capacity) && x in s && HasAck(Offer(mine, Table.Ids(s)), x.id)
    ensures !Has(AfterExchange(self, peers, s, mine, worlds, capacity), x.id)
    ensures !Union(s, mine, AfterExchange(self, peers, s, mine, worlds, capacity))
  {
    var offered := Offer(mine, Table.Ids(s));
    ExchangeIds(self, peers, s, mine, worlds, capacity, x.id);
    assert Has(s, x.id);
    forall k | 0 <= k < |offered| ensures worlds(k).freshId != x.id {
      assert FreshFor(s, offered, worlds(k).freshId);
    }
    assert forall k :: 0 <= k < |offered| ==> !MintedAt(self, s, offered, worlds, k, x.id);
  }

  lemma {:induction false} OfferedBreaksUnion(self: Uuid, peers: seq<Uuid>, s: seq<Bundle>, mine: seq<Bundle>,
                                              worlds: nat -> World, capacity: nat, k: nat)
    requires Exchange(self, s, mine, worlds, capacity) && k < |Offer(mine, Table.Ids(s))|
    requires Union(s, mine, AfterExchange(self, peers, s, mine, worlds, capacity))
    ensures var b := Offer(mine, Table.Ids(s))[k]; !Blocked(s, b) && !MintsFor(self, b)
  {
    var offered := Offer(mine, Table.Ids(s));
    var b, drawn := offered[k], worlds(k).freshId;
    assert b in offered && FreshFor(s, offered, drawn);
    if MintsFor(self, b) {
      assert MintedAt(self, s, offered, worlds, k, drawn);
      ExchangeIds(self, peers, s, mine, worlds, capacity, drawn);
      OfferedOrHeld(s, mine, drawn);
    } else if Blocked(s, b) {
      BlockedStaysOut(self, peers, s, mine, worlds, capacity, b);
      OfferedOrHeld(s, mine, b.id);
      assert Has(offered, b.id);
    }
  }

  /** Offered Data is stored afterwards if and only if the peer had no ACK for it. */
  lemma {:induction false} BlockedStaysOut(self: Uuid, peers: seq<Uuid>, s: seq<Bundle>, mine: seq<Bundle>,
                                           worlds: nat -> World, capacity: nat, b: Bundle)
    requires Exchange(self, s, mine, worlds, capacity) && b in Offer(mine, Table.Ids(s))
    ensures Has(AfterExchange(self, peers, s, mine, worlds, capacity), b.id) <==> !Blocked(s, b)
  {
    ExchangeIds(self, peers, s, mine, worlds, capacity, b.id);
    TakenUnlessBlocked(self, s, Offer(mine, Table.Ids(s)), worlds, b);
  }

  lemma {:induction false} TakenUnlessBlocked(self: Uuid, s: seq<Bundle>, offered: seq<Bundle>, worlds: nat -> World,
                                              b: Bundle)
    requires Distinct(offered) && b in offered && FreshIds(s, offered, worlds)
    ensures Taken(s, offered, b.id) <==> !Blocked(s, b)
    ensures !Minted(self, s, offered, worlds, b.id)
  {
    forall x | x in offered && x.id == b.id ensures x == b {
      SameId(offered, x, b);
    }
    forall k | 0 <= k < |offered| ensures !MintedAt(self, s, offered, worlds, k, b.id) {
      assert FreshFor(s, offered, worlds(k).freshId) && Has(offered, b.id);
    }
  }

  function AckedAt(s: seq<Bundle>): Bundle -> bool {
    (b: Bundle) => Blocked(s, b)
  }

  /** A second exchange offers, in order, exactly the Data that the peer has ACKs for, and so nothing if and only if
      there is none. */
  lemma {:induction false} SecondExchange(self: Uuid, peers: seq<Uuid>, s: seq<Bundle>, mine: seq<Bundle>,
                                          worlds: nat -> World, capacity: nat)
    requires Exchange(self, s, mine, worlds, capacity)
    ensures var offered := Offer(mine, Table.Ids(s));
            var again := Offer(mine, Table.Ids(AfterExchange(self, peers, s, mine, worlds, capacity)));
            && again == Filter(offered, AckedAt(s))
            && (again == [] <==> forall b :: b in offered ==> !Blocked(s, b))
  {
    var offered, after := Offer(mine, Table.Ids(s)), AfterExchange(self, peers, s, mine, worlds, capacity);
    var mine' := Filter(mine, IsRetryable());
    forall b | b in mine' ensures NotAmong(Table.Ids(after))(b) <==> NotAmong(Table.Ids(s))(b) && AckedAt(s)(b) {
      OfferedAgain(self, peers, s, mine, worlds, capacity, b);
    }
    FilterInTwo(mine', NotAmong(Table.Ids(s)), AckedAt(s), NotAmong(Table.Ids(after)));
    assert Offer(mine, Table.Ids(after)) == Filter(offered, AckedAt(s));
    if b :| b in offered && Blocked(s, b) {
      assert b in Filter(offered, AckedAt(s));
    }
    if Filter(offered, AckedAt(s)) != [] {
      assert Filter(offered, AckedAt(s))[0] in offered;
    }
  }

  lemma {:induction false} OfferedAgain(self: Uuid, peers: seq<Uuid>, s: seq<Bundle>, mine: seq<Bundle>,
                                        worlds: nat -> World, capacity: nat, b: Bundle)
    requires Exchange(self, s, mine, worlds, capacity) && b in Filter(mine, IsRetryable())
    ensures b.id !in Table.Ids(AfterExchange(self, peers, s, mine, worlds, capacity))
            <==> b.id !in Table.Ids(s) && Blocked(s, b)
  {
    var offered := Offer(mine, Table.Ids(s));
    Table.IdsMembers(s, b.id);
    Table.IdsMembers(AfterExchange(self, peers, s, mine, worlds, capacity), b.id);
    if Has(s, b.id) {
      ExchangeIds(self, peers, s, mine, worlds, capacity, b.id);
      forall a | a in offered ensures !IsAckFor(a, b.id) {
        assert NamesNone(a, Filter(mine, IsRetryable()));
      }
    } else {
      assert b in offered;
      BlockedStaysOut(self, peers, s, mine, worlds, capacity, b);
    }
  }

  lemma {:induction false} FilterInTwo(s: seq<Bundle>, p: Bundle -> bool, q: Bundle -> bool, both: Bundle -> bool)
    requires forall b :: b in s ==> (both(b) <==> p(b) && q(b))
    ensures Filter(Filter(s, p), q) == Filter(s, both)
  {
    if s != [] {
      assert s[0] in s && forall b :: b in s[1..] ==> b in s;
      FilterInTwo(s[1..], p, q, both);
    }
  }

  /** The failing input: a peer with nothing but Data, and an ACK for it on the other side. Afterwards the peer has the
      ACK alone. */
  lemma {:induction false} AckBreaksUnion(self: Uuid, peers: seq<Uuid>, d: Bundle, a: Bundle, worlds: nat -> World,
                                          capacity: nat)
    requires IsAckFor(a, d.id) && a.id != d.id && (a.status == Pending || a.status == InTransit)
    requires Exchange(self, [d], [a], worlds, capacity)
    ensures var after := AfterExchange(self, peers, [d], [a], worlds, capacity);
            !Has(after, d.id) && Has(after, a.id) && !Union([d], [a], after)
  {
    var offered := Offer([a], Table.Ids([d]));
    OfferIsWhatIsMissing([a], [d]);
    assert !Has([d], a.id);
    assert a in [a] && a in offered;
    assert HasAck(offered, d.id);
    DisplacedBreaksUnion(self, peers, [d], [a], worlds, capacity, d);
    ExchangeIds(self, peers, [d], [a], worlds, capacity, a.id);
    assert Taken([d], offered, a.id);
  }

  /** Such an exchange exists: node 3 holds Data from 1 to 2, its neighbour the ACK. */
  lemma {:induction false} AckBreaksUnionExample(peers: seq<Uuid>) returns (d: Bundle, a: Bundle, w: World)
    ensures Exchange(3, [d], [a], _ => w, 2)
    ensures var after := AfterExchange(3, peers, [d], [a], _ => w, 2); !Has(after, d.id) && Has(after, a.id)
  {
    var source, destination := Node(1, "source", "", 0, []), Node(2, "destination", "", 0, []);
    d := Bundle(10, source, destination, 0, 60, Data("hello"), Pending);
    a := Bundle(11, destination, source, 0, 60, Ack(10), Pending);
    w := World(0, [], map[], {}, 12);
    OneAckOffered(3, d, a, w, 2);
    AckBreaksUnion(3, peers, d, a, _ => w, 2);
  }

  /** A lone ACK offered to a relay that holds its Data alone. */
  lemma {:induction false} OneAckOffered(self: Uuid, d: Bundle, a: Bundle, w: World, capacity: nat)
    requires d.kind.Data? && a.kind == Ack(d.id) && d.status == Pending && a.status == Pending
    requires self != d.destination.id && a.source.id != a.destination.id && capacity >= 2
    requires a.id != d.id && w.freshId != a.id && w.freshId != d.id
    requires !IsExpired(d, w.now) && Live(a, w.now) && a.timestamp <= w.now
    ensures Exchange(self, [d], [a], _ => w, capacity)
  {
    assert d in [d] && a in [a] && Filter([a], IsRetryable()) == [a];
    Table.IdsMembers([d], a.id);
    assert Offer([a], Table.Ids([d])) == [a];
    assert Slots(self, [a]) == 1 by { assert [a][..0] == []; }
    assert NodeInv(self, [d], capacity);
    assert Compatible(self, [d], [a], [a]);
  }

  // ---- In every reachable state --------------------------------------------------------------

  lemma {:induction false} NamedIsData(net: Net, b: Bundle, x: Bundle)
    requires Inv(net) && Version(b, net.issued) && Version(x, net.issued) && IsAckFor(b, x.id)
    ensures x.kind.Data?
  {
    VersionFields(b, net.issued);
    VersionFields(x, net.issued);
    IssuedAck(net, b.id);
  }

  lemma {:induction false} NoTwoRivals(net: Net, b: Bundle, x: Bundle)
    requires Inv(net) && Version(b, net.issued) && Version(x, net.issued)
    requires b.kind.Ack? && IsAckFor(x, b.kind.ackBundleId)
    ensures x.id == b.id
  {
    VersionFields(b, net.issued);
    VersionFields(x, net.issued);
    NoRivals(net, b.id, x.id);
  }

  /** A node never offers an ACK for a bundle that it would offer too. */
  lemma {:induction false} NeverBoth(net: Net, n: Uuid, b: Bundle, x: Bundle)
    requires Inv(net) && n in net.stores && b in net.stores[n] && x in net.stores[n] && IsRetryable()(x)
    ensures !IsAckFor(b, x.id)
  {
    StoreIsWell(net, n);
    assert StatusFits(n, x) && Version(b, net.issued) && Version(x, net.issued);
    if IsAckFor(b, x.id) {
      NamedIsData(net, b, x);
    }
  }

  lemma {:induction false} OfferedIsSound(net: Net, p: Uuid, l: Uuid, b: Bundle)
    requires Inv(net) && p in net.stores && l in net.stores
    requires b in Offer(net.stores[l], Table.Ids(net.stores[p])) && Version(b, net.issued)
    requires Live(net.issued[b.id], net.now)
    ensures b.source.id != b.destination.id && NamesData(b, net.stores[p])
    ensures NamesNone(b, Filter(net.stores[l], IsRetryable()))
    ensures !Rivalled(b, net.stores[p]) && !Rivalled(b, Offer(net.stores[l], Table.Ids(net.stores[p])))
    ensures MintsFor(p, b) ==> !HasAck(net.stores[p], b.id)
  {
    var s := net.stores[p];
    OfferIsWhatIsMissing(net.stores[l], s);
    VersionFields(b, net.issued);
    assert IssuedWell(net.issued[b.id], net.now);
    forall x | x in s && IsAckFor(b, x.id) ensures x.kind.Data? {
      assert Version(x, net.issued);
      NamedIsData(net, b, x);
    }
    forall x | x in Filter(net.stores[l], IsRetryable()) ensures !IsAckFor(b, x.id) {
      NeverBoth(net, l, b, x);
    }
    forall x | b.kind.Ack? && (x in s || x in net.stores[l]) && IsAckFor(x, b.kind.ackBundleId) ensures x.id == b.id {
      assert Version(x, net.issued);
      NoTwoRivals(net, b, x);
    }
    if MintsFor(p, b) {
      NoAckWithoutData(net, p, b.id);
    }
  }

  /** Any two stores of a reachable state stand so to each other that an exchange of live bundles can run its course,
      given room. */
  lemma {:induction false} ExchangeIsPossible(net: Net, p: Uuid, l: Uuid, worlds: nat -> World)
    requires Inv(net) && p in net.stores && l in net.stores
    requires var offered := Offer(net.stores[l], Table.Ids(net.stores[p]));
             && (forall b :: b in offered && b.id in net.issued ==> Live(net.issued[b.id], net.now))
             && Timely(net.stores[p], offered, worlds, |offered|)
             && |net.stores[p]| + Slots(p, offered) <= net.capacity
             && (forall k :: 0 <= k < |offered| ==> worlds(k).freshId !in net.issued && !DrawnBefore(worlds, k))
    ensures Exchange(p, net.stores[p], net.stores[l], worlds, net.capacity)
  {
    var s, local := net.stores[p], net.stores[l];
    var offered := Offer(local, Table.Ids(s));
    StoreIsWell(net, p);
    StoreIsWell(net, l);
    OfferIsWhatIsMissing(local, s);
    FilterKeepsDistinct(local, IsRetryable());
    FilterKeepsDistinct(Filter(local, IsRetryable()), NotAmong(Table.Ids(s)));
    forall b | b in offered
      ensures b.source.id != b.destination.id && NamesData(b, s) && NamesNone(b, Filter(local, IsRetryable()))
      ensures !Rivalled(b, s) && !Rivalled(b, offered) && (MintsFor(p, b) ==> !HasAck(s, b.id))
    {
      assert Version(b, net.issued);
      OfferedIsSound(net, p, l, b);
    }
    forall k | 0 <= k < |offered| ensures FreshFor(s, offered, worlds(k).freshId) {
      UnissuedIsFresh(net, p, l, worlds(k).freshId);
    }
  }

  lemma {:induction false} UnissuedIsFresh(net: Net, p: Uuid, l: Uuid, id: Uuid)
    requires Inv(net) && p in net.stores && l in net.stores && id !in net.issued
    ensures FreshFor(net.stores[p], Offer(net.stores[l], Table.Ids(net.stores[p])), id)
  {
    var offered := Offer(net.stores[l], Table.Ids(net.stores[p]));
    if Has(net.stores[p], id) {
      HeldIsIssued(net, p, id);
    }
    forall b | b in offered ensures b.id != id {
      assert Version(b, net.issued);
    }
    if HasAck(offered, id) {
      var b :| b in offered && IsAckFor(b, id);
      assert Version(b, net.issued);
      VersionFields(b, net.issued);
      IssuedAck(net, b.id);
    }
  }
}
