/** A network of nodes: their stores, every message ever put on the wire, one clock. Messages may be lost,
    reordered, duplicated and misdelivered: a wire copy, once sent to some node, may reach any node at any later
    time, any number of times. (A node is sent to at the address it last registered.) */
module Network {
  import opened Model
  import opened Store
  import opened NodeStep
  import opened NodeFacts
  import Wire

  /** `issued` records the bundles created so far, by id: the random ids that are taken. */
  datatype Net = Net(
    capacity: nat,
    now: int,
    stores: map<Uuid, seq<Bundle>>,
    sent: set<Message>,
    issued: map<Uuid, Bundle>)

  datatype Action =
    | Send(node: Uuid, source: Node, destination: Node, msg: string, ttl: U64, id: Uuid, peers: seq<Uuid>, w: World)
    | Arrive(node: Uuid, bundle: Bundle, peers: seq<Uuid>, w: World)
    | Resend(node: Uuid, peers: seq<Uuid>, w: World)
    | DropExpired(node: Uuid)
    | Tick(to: int)

  predicate Initial(net: Net) {
    && (forall n :: n in net.stores ==> net.stores[n] == [])
    && net.sent == {}
    && net.issued == map[]
  }

  predicate FreshWorld(net: Net, w: World) {
    w.now == net.now && w.freshId !in net.issued
  }

  predicate Enabled(net: Net, a: Action) {
    match a
    case Send(n, source, destination, _, _, id, _, w) =>
      && n in net.stores && source.id == n && destination.id != n
      && id !in net.issued && FreshWorld(net, w) && w.freshId != id
    case Arrive(n, b, _, w) => n in net.stores && OnWire(net, b) && FreshWorld(net, w)
    case Resend(n, _, w) => n in net.stores && w.now == net.now
    case DropExpired(n) => n in net.stores
    case Tick(to) => net.now <= to
  }

  /** What the wire makes of a message: the addressee, and the bundle as the far end rebuilds it. */
  function Carried(m: Message): Message {
    Message(m.to, Wire.Carry(m.bundle))
  }

  /** The messages handed to send_bundle, as they travel. */
  function Copies(sent: seq<Message>): set<Message> {
    set m | m in sent :: Carried(m)
  }

  /** `b` was once sent to some node. */
  predicate OnWire(net: Net, b: Bundle) {
    exists m :: m in net.sent && m.bundle == b
  }

  function Record(issued: map<Uuid, Bundle>, b: Option<Bundle>): map<Uuid, Bundle> {
    if b.Some? then issued[b.value.id := b.value] else issued
  }

  /** One call of an engine as the network sees it: node `node` ends with `store`, having sent `sent` and perhaps
      minted an ACK. `news` and `dropped` bound what may appear in the store and what may leave it. */
  datatype NodeEvent = NodeEvent(
    node: Uuid,
    store: seq<Bundle>,
    sent: seq<Message>,
    minted: Option<Bundle>,
    news: set<Bundle>,
    dropped: set<Uuid>)

  function After(net: Net, e: NodeEvent): Net {
    net.(stores := net.stores[e.node := e.store],
         sent := net.sent + Copies(e.sent),
         issued := Record(net.issued, e.minted))
  }

  /** A Data bundle has just been created. */
  function Issue(net: Net, d: Bundle): Net {
    net.(issued := net.issued[d.id := d])
  }

  /** The network in which the event of a step takes place: a CLI send first creates its bundle. */
  function Base(net: Net, a: Action): Net {
    match a
    case Send(_, source, destination, msg, ttl, id, _, _) =>
      Issue(net, NewData(source, destination, msg, ttl, id, net.now))
    case _ => net
  }

  function Routed(node: Uuid, b: Bundle, o: Outcome): NodeEvent {
    NodeEvent(node, o.store, o.sent, o.minted, News(b, o.minted), Dropped(b))
  }

  function EventOf(net: Net, a: Action): NodeEvent
    requires Enabled(net, a) && !a.Tick?
  {
    var s := net.stores[a.node];
    match a
    case Send(n, source, destination, msg, ttl, id, peers, w) =>
      var d := NewData(source, destination, msg, ttl, id, net.now);
      Routed(n, d, Route(n, peers, s, d, w, net.capacity))
    case Arrive(n, b, peers, w) =>
      var o := NodeStep.Receive(n, peers, s, b, w, net.capacity);
      if Has(s, b.id) then NodeEvent(n, o.store, o.sent, o.minted, {}, {}) else Routed(n, b, o)
    case Resend(n, peers, w) =>
      var (t, sent) := NodeStep.Retry(n, peers, s, w);
      NodeEvent(n, t, sent, None, {}, {})
    case DropExpired(n) =>
      NodeEvent(n, DeleteAll(s, ExpiredIds(s, net.now)), [], None, {}, {})
  }

  /** Nothing changes at `n`. */
  function Idle(net: Net, n: Uuid): NodeEvent
    requires n in net.stores
  {
    NodeEvent(n, net.stores[n], [], None, {}, {})
  }

  function Next(net: Net, a: Action): Net
    requires Enabled(net, a)
  {
    if a.Tick? then net.(now := a.to) else After(Base(net, a), EventOf(net, a))
  }

  // ---- The invariant -------------------------------------------------------------------------

  predicate IssuedWell(b: Bundle, now: int) {
    b.status == Pending && (b.kind.Data? || b.kind.Ack?) && b.source.id != b.destination.id && b.timestamp <= now
  }

  predicate AllIssuedWell(net: Net) {
    forall id :: id in net.issued ==> net.issued[id].id == id && IssuedWell(net.issued[id], net.now)
  }

  /** `a` answers `d`: endpoints swapped, same TTL, made no earlier. */
  predicate Answers(a: Bundle, d: Bundle) {
    d.kind.Data? && a.source == d.destination && a.destination == d.source && a.ttl == d.ttl
    && d.timestamp <= a.timestamp
  }

  predicate AcksTruthful(net: Net) {
    forall id {:trigger TruthfulAck(net, net.issued[id])} ::
      id in net.issued && net.issued[id].kind.Ack? ==> TruthfulAck(net, net.issued[id])
  }

  /** The ACK answers issued Data, from a node of the network. */
  predicate TruthfulAck(net: Net, a: Bundle)
    requires a.kind.Ack?
  {
    a.kind.ackBundleId in net.issued && Answers(a, net.issued[a.kind.ackBundleId]) && a.source.id in net.stores
  }

  predicate OneAckEach(net: Net) {
    forall i, j {:trigger Rivals(net.issued, i, j)} :: Rivals(net.issued, i, j) ==> i == j
  }

  /** Both are issued ACKs, for the same Data. */
  predicate Rivals(issued: map<Uuid, Bundle>, i: Uuid, j: Uuid) {
    && i in issued && j in issued
    && issued[i].kind.Ack? && IsAckFor(issued[j], issued[i].kind.ackBundleId)
  }

  /** Up to status, `b` is the issued bundle of its id, whole or cut by the wire. */
  predicate Version(b: Bundle, issued: map<Uuid, Bundle>) {
    b.id in issued && (Core(b) == issued[b.id] || Core(b) == WireCopy(issued[b.id]))
  }

  predicate StoresHoldVersions(net: Net) {
    forall n, b :: n in net.stores && b in net.stores[n] ==> Version(b, net.issued)
  }

  predicate SentAreCopies(net: Net) {
    forall m :: m in net.sent ==> IsCopy(m.bundle, net.issued)
  }

  /** The wire copy of an issued bundle. */
  predicate IsCopy(b: Bundle, issued: map<Uuid, Bundle>) {
    b.id in issued && b == WireCopy(issued[b.id])
  }

  predicate NodesWell(net: Net) {
    forall n {:trigger NodeInv(n, net.stores[n], net.capacity)} ::
      n in net.stores ==> NodeInv(n, net.stores[n], net.capacity)
  }

  /** While its Data is live, an issued ACK and that Data are both stored at the Data's destination. */
  predicate Rooted(net: Net) {
    forall id {:trigger RootedAck(net, net.issued[id])} ::
      id in net.issued && net.issued[id].kind.Ack? ==> RootedAck(net, net.issued[id])
  }

  predicate RootedAck(net: Net, a: Bundle)
    requires a.kind.Ack?
  {
    a.kind.ackBundleId in net.issued && Live(net.issued[a.kind.ackBundleId], net.now) ==>
      a.source.id in net.stores
      && Has(net.stores[a.source.id], a.kind.ackBundleId) && Has(net.stores[a.source.id], a.id)
  }

  predicate Inv(net: Net) {
    && AllIssuedWell(net)
    && AcksTruthful(net)
    && OneAckEach(net)
    && StoresHoldVersions(net)
    && SentAreCopies(net)
    && NodesWell(net)
    && Rooted(net)
  }

  /** What the invariant says of an issued ACK. */
  lemma {:induction false} IssuedAck(net: Net, id: Uuid)
    requires Inv(net) && id in net.issued && net.issued[id].kind.Ack?
    ensures TruthfulAck(net, net.issued[id]) && RootedAck(net, net.issued[id])
  {
  }

  lemma {:induction false} NoRivals(net: Net, i: Uuid, j: Uuid)
    requires Inv(net) && Rivals(net.issued, i, j)
    ensures i == j
  {
  }

  lemma {:induction false} StoreIsWell(net: Net, n: Uuid)
    requires Inv(net) && n in net.stores
    ensures NodeInv(n, net.stores[n], net.capacity)
  {
  }

  // ---- Facts about versions ------------------------------------------------------------------

  lemma {:induction false} VersionFields(b: Bundle, issued: map<Uuid, Bundle>)
    requires Version(b, issued)
    ensures var d := issued[b.id];
            b.kind == d.kind && b.source == d.source && b.destination == d.destination && b.ttl == d.ttl
            && (b.timestamp == d.timestamp || b.timestamp == Cut(d.timestamp))
  {
    var d := issued[b.id];
    assert b.kind == Core(b).kind && b.source == Core(b).source && b.destination == Core(b).destination;
    assert b.ttl == Core(b).ttl && b.timestamp == Core(b).timestamp;
  }

  /** Every version of a live bundle is unexpired. */
  lemma {:induction false} LiveVersion(b: Bundle, issued: map<Uuid, Bundle>, now: int)
    requires Version(b, issued) && Live(issued[b.id], now)
    ensures !IsExpired(b, now)
  {
    VersionFields(b, issued);
    ExpiryIsADeadline(b, now);
    ExpiryIsADeadline(WireCopy(issued[b.id]), now);
  }

  /** An ACK is live while the Data it answers is. */
  lemma {:induction false} AckOutlives(a: Bundle, d: Bundle, now: int)
    requires Answers(a, d) && Live(d, now)
    ensures Live(a, now)
  {
    ExpiryIsADeadline(WireCopy(a), now);
    ExpiryIsADeadline(WireCopy(d), now);
  }

  lemma {:induction false} SprungVersion(x: Bundle, s: seq<Bundle>, news: set<Bundle>, issued: map<Uuid, Bundle>)
    requires Sprung(x, s, news)
    requires forall y :: y in s ==> Version(y, issued)
    requires forall y :: y in news ==> Core(y) == y && Version(y, issued)
    ensures Version(x, issued)
  {
    if Core(x) in news {
      assert Core(x).id == x.id;
    } else {
      var y :| y in s && Core(y) == Core(x);
      SameCore(x, y);
    }
  }

  lemma {:induction false} CopyOfVersion(x: Bundle, issued: map<Uuid, Bundle>)
    requires Version(x, issued) && issued[x.id].status == Pending
    ensures WireCopy(x) == WireCopy(issued[x.id])
  {
    assert WireCopy(x) == WireCopy(Core(x));
    assert Cut(Cut(x.timestamp)) == Cut(x.timestamp);
  }

  // ---- One node event ------------------------------------------------------------------------

  /** What every call of the engine keeps to. */
  predicate Proper(net: Net, e: NodeEvent) {
    && e.node in net.stores
    && NodeInv(e.node, e.store, net.capacity)
    && AllSprung(e.store, net.stores[e.node], e.news) && SentSprung(e.sent, net.stores[e.node], e.news)
    && KeptExcept(net.stores[e.node], e.store, net.now, e.dropped)
    && (forall y :: y in e.news ==> Core(y) == y && Version(y, Record(net.issued, e.minted)))
    && (forall id :: id in e.dropped ==>
          DroppedRightly(net, e.node, id) && Displaced(net.stores[e.node], e.store, id))
    && (e.minted.Some? ==> MintedHere(net, e.node, e.store, e.minted.value))
  }

  /** A dropped id is that of Data whose ACK is in the network but not in this store. */
  predicate DroppedRightly(net: Net, n: Uuid, id: Uuid)
    requires n in net.stores
  {
    && id in net.issued && net.issued[id].kind.Data?
    && exists a :: a in net.issued && IsAckFor(net.issued[a], id) && !Has(net.stores[n], a)
  }

  /** Dropped Data makes way for an ACK. */
  predicate Displaced(s: seq<Bundle>, t: seq<Bundle>, id: Uuid) {
    Has(s, id) && !HasAck(s, id) ==> HasAck(t, id)
  }

  /** A minted ACK is new, answers live Data destined here and not known before, and is stored with it. */
  predicate MintedHere(net: Net, n: Uuid, t: seq<Bundle>, a: Bundle)
    requires n in net.stores
  {
    && a.id !in net.issued && a.kind.Ack? && IssuedWell(a, net.now)
    && a.kind.ackBundleId in net.issued && Answers(a, net.issued[a.kind.ackBundleId]) && a.source.id == n
    && Live(net.issued[a.kind.ackBundleId], net.now)
    && !Has(net.stores[n], a.kind.ackBundleId)
    && Has(t, a.kind.ackBundleId) && Has(t, a.id)
  }

  lemma {:induction false} EventKeepsIssued(net: Net, e: NodeEvent)
    requires Inv(net) && Proper(net, e)
    ensures AllIssuedWell(After(net, e)) && NodesWell(After(net, e))
  {
    forall n | n in net.stores ensures NodeInv(n, net.stores[n], net.capacity) {
      StoreIsWell(net, n);
    }
  }

  lemma {:induction false} EventKeepsTruth(net: Net, e: NodeEvent)
    requires Inv(net) && Proper(net, e)
    ensures AcksTruthful(After(net, e))
  {
    var net' := After(net, e);
    forall id | id in net'.issued && net'.issued[id].kind.Ack? ensures TruthfulAck(net', net'.issued[id]) {
      if id in net.issued {
        IssuedAck(net, id);
      }
    }
  }

  /** No ACK for it is issued when an ACK is minted. */
  lemma {:induction false} MintedFirst(net: Net, e: NodeEvent, i: Uuid)
    requires Inv(net) && Proper(net, e) && e.minted.Some? && i in net.issued
    ensures !IsAckFor(net.issued[i], e.minted.value.kind.ackBundleId)
  {
    if IsAckFor(net.issued[i], e.minted.value.kind.ackBundleId) {
      IssuedAck(net, i);
    }
  }

  lemma {:induction false} EventKeepsOneAck(net: Net, e: NodeEvent)
    requires Inv(net) && Proper(net, e)
    ensures OneAckEach(After(net, e))
  {
    var net' := After(net, e);
    forall i, j | Rivals(net'.issued, i, j) ensures i == j {
      if i in net.issued && j in net.issued {
        NoRivals(net, i, j);
      } else if i in net.issued {
        MintedFirst(net, e, i);
      } else if j in net.issued {
        MintedFirst(net, e, j);
      }
    }
  }

  lemma {:induction false} RecordKeepsVersions(b: Bundle, issued: map<Uuid, Bundle>, minted: Option<Bundle>)
    requires Version(b, issued) && (minted.Some? ==> minted.value.id !in issued)
    ensures Version(b, Record(issued, minted))
  {
  }

  lemma {:induction false} SentKeepCopies(sent: seq<Message>, s: seq<Bundle>, news: set<Bundle>,
                                          issued: map<Uuid, Bundle>)
    requires SentSprung(sent, s, news)
    requires forall y :: y in s ==> Version(y, issued)
    requires forall y :: y in news ==> Core(y) == y && Version(y, issued)
    requires forall id :: id in issued ==>
               issued[id].status == Pending && (issued[id].kind.Data? || issued[id].kind.Ack?)
    ensures forall c :: c in Copies(sent) ==> IsCopy(c.bundle, issued)
  {
    forall m | m in sent ensures IsCopy(Wire.Carry(m.bundle), issued) {
      SprungVersion(m.bundle, s, news, issued);
      VersionFields(m.bundle, issued);
      CopyOfVersion(m.bundle, issued);
      CarryOfPlain(m.bundle, Wire.Carry(m.bundle));
    }
  }

  lemma {:induction false} CarryOfPlain(x: Bundle, c: Bundle)
    requires c == Wire.Carry(x) && (x.kind.Data? || x.kind.Ack?)
    ensures c == WireCopy(x)
  {
    Wire.WireRoundTrip(x);
  }

  lemma {:induction false} EventKeepsVersions(net: Net, e: NodeEvent)
    requires Inv(net) && Proper(net, e)
    ensures StoresHoldVersions(After(net, e)) && SentAreCopies(After(net, e))
  {
    var issued' := Record(net.issued, e.minted);
    forall m, b | m in net.stores && b in net.stores[m] ensures Version(b, issued') {
      RecordKeepsVersions(b, net.issued, e.minted);
    }
    forall x | x in e.store ensures Version(x, issued') {
      SprungVersion(x, net.stores[e.node], e.news, issued');
    }
    EventKeepsIssued(net, e);
    SentKeepCopies(e.sent, net.stores[e.node], e.news, issued');
  }

  /** A live bundle that the node holds is still there after the event, unless it was dropped. */
  lemma {:induction false} EventKeepsLive(net: Net, e: NodeEvent, id: Uuid)
    requires Inv(net) && Proper(net, e)
    requires Has(net.stores[e.node], id) && id !in e.dropped && (id in net.issued ==> Live(net.issued[id], net.now))
    ensures Has(e.store, id)
  {
    var y :| y in net.stores[e.node] && y.id == id;
    LiveVersion(y, net.issued, net.now);
    assert Holds(e.store, y);
    var x :| x in e.store && Core(x) == Core(y);
    SameCore(x, y);
  }

  /** An issued ACK stored with its live Data at the destination: neither is dropped there. */
  lemma {:induction false} RootKept(net: Net, e: NodeEvent, id: Uuid)
    requires Inv(net) && Proper(net, e) && id in net.issued && net.issued[id].kind.Ack?
    requires net.issued[id].kind.ackBundleId in net.issued
    requires Live(net.issued[net.issued[id].kind.ackBundleId], net.now) && net.issued[id].source.id == e.node
    ensures Has(e.store, net.issued[id].kind.ackBundleId) && Has(e.store, id)
  {
    var a := net.issued[id];
    var d := a.kind.ackBundleId;
    IssuedAck(net, id);
    if d in e.dropped {
      var b :| b in net.issued && IsAckFor(net.issued[b], d) && !Has(net.stores[e.node], b);
      NoRivals(net, id, b);
    }
    AckOutlives(a, net.issued[d], net.now);
    EventKeepsLive(net, e, d);
    EventKeepsLive(net, e, id);
  }

  lemma {:induction false} EventKeepsRoots(net: Net, e: NodeEvent)
    requires Inv(net) && Proper(net, e)
    ensures Rooted(After(net, e))
  {
    var net' := After(net, e);
    forall id | id in net'.issued && net'.issued[id].kind.Ack? ensures RootedAck(net', net'.issued[id]) {
      var a := net'.issued[id];
      if e.minted != Some(a) {
        assert id in net.issued && net.issued[id] == a;
        IssuedAck(net, id);
        var d := a.kind.ackBundleId;
        assert d in net.issued && net'.issued[d] == net.issued[d];
        if Live(net.issued[d], net.now) && a.source.id == e.node {
          RootKept(net, e, id);
        }
      }
    }
  }

  lemma {:induction false} EventKeepsInv(net: Net, e: NodeEvent)
    requires Inv(net) && Proper(net, e)
    ensures Inv(After(net, e))
  {
    EventKeepsIssued(net, e);
    EventKeepsTruth(net, e);
    EventKeepsOneAck(net, e);
    EventKeepsVersions(net, e);
    EventKeepsRoots(net, e);
  }

  // ---- Every step is such an event -----------------------------------------------------------

  lemma {:induction false} HeldIsIssued(net: Net, n: Uuid, id: Uuid)
    requires Inv(net) && n in net.stores && Has(net.stores[n], id)
    ensures id in net.issued
  {
    var y :| y in net.stores[n] && y.id == id;
    assert Version(y, net.issued);
  }

  /** A stored ACK is an issued one. */
  lemma {:induction false} HeldAck(net: Net, n: Uuid, dataId: Uuid) returns (id: Uuid)
    requires Inv(net) && n in net.stores && HasAck(net.stores[n], dataId)
    ensures id in net.issued && IsAckFor(net.issued[id], dataId) && Has(net.stores[n], id)
  {
    var y :| y in net.stores[n] && IsAckFor(y, dataId);
    assert Version(y, net.issued);
    VersionFields(y, net.issued);
    id := y.id;
  }

  lemma {:induction false} ArrivalIsAcceptable(net: Net, n: Uuid, b: Bundle, w: World)
    requires Inv(net) && n in net.stores && OnWire(net, b) && FreshWorld(net, w) && !Has(net.stores[n], b.id)
    ensures Acceptable(n, net.stores[n], b, w, net.capacity)
    ensures b.id in net.issued && b == WireCopy(net.issued[b.id]) && Core(b) == b
  {
    assert IsCopy(b, net.issued) && IssuedWell(net.issued[b.id], net.now);
    if Has(net.stores[n], w.freshId) {
      HeldIsIssued(net, n, w.freshId);
    }
  }

  /** A destination that lacks live Data has no ACK for it either. */
  lemma {:induction false} NoAckWithoutData(net: Net, n: Uuid, id: Uuid)
    requires Inv(net) && n in net.stores && id in net.issued && net.issued[id].kind.Data?
    requires net.issued[id].destination.id == n && Live(net.issued[id], net.now)
    ensures HasAck(net.stores[n], id) ==> Has(net.stores[n], id)
  {
    if HasAck(net.stores[n], id) {
      var a := HeldAck(net, n, id);
      IssuedAck(net, a);
    }
  }

  lemma {:induction false} ArrivalMints(net: Net, n: Uuid, b: Bundle, w: World, o: Outcome)
    requires Inv(net) && n in net.stores && OnWire(net, b) && FreshWorld(net, w) && !Has(net.stores[n], b.id)
    requires MintedRightly(n, net.stores[n], b, o, w) && o.minted.Some?
    ensures MintedHere(net, n, o.store, o.minted.value)
  {
    ArrivalIsAcceptable(net, n, b, w);
    var a := o.minted.value;
    NoAckWithoutData(net, n, b.id);
    assert Answers(a, net.issued[b.id]);
    var x :| x in o.store && Core(x) == Core(b);
    var y :| y in o.store && Core(y) == Core(a);
    SameCore(x, b);
    SameCore(y, a);
  }

  lemma {:induction false} ArrivalIsProper(net: Net, n: Uuid, b: Bundle, w: World, o: Outcome)
    requires Inv(net) && n in net.stores && OnWire(net, b) && FreshWorld(net, w) && !Has(net.stores[n], b.id)
    requires Lawful(n, net.stores[n], b, o, w, net.capacity)
    ensures Proper(net, Routed(n, b, o))
  {
    ArrivalIsAcceptable(net, n, b, w);
    assert Version(b, net.issued);
    if o.minted.Some? {
      ArrivalMints(net, n, b, w, o);
    }
    if b.kind.Ack? {
      IssuedAck(net, b.id);
      assert IsAckFor(net.issued[b.id], b.kind.ackBundleId);
      assert DroppedRightly(net, n, b.kind.ackBundleId);
    }
  }

  lemma {:induction false} IdleIsProper(net: Net, n: Uuid)
    requires Inv(net) && n in net.stores
    ensures Proper(net, Idle(net, n)) && After(net, Idle(net, n)) == net
  {
    assert net.stores[n := net.stores[n]] == net.stores;
    assert net.sent + Copies([]) == net.sent;
  }

  /** Creating a Data bundle, before it is routed, breaks nothing. */
  lemma {:induction false} IssueKeepsInv(net: Net, d: Bundle)
    requires Inv(net) && d.id !in net.issued && d.kind.Data? && IssuedWell(d, net.now)
    ensures Inv(Issue(net, d))
  {
    var net' := Issue(net, d);
    forall n, b | n in net.stores && b in net.stores[n] ensures Version(b, net'.issued) {
      assert Version(b, net.issued);
    }
    forall id | id in net'.issued && net'.issued[id].kind.Ack?
      ensures TruthfulAck(net', net'.issued[id]) && RootedAck(net', net'.issued[id])
    {
      IssuedAck(net, id);
    }
    forall i, j | Rivals(net'.issued, i, j) ensures i == j {
      NoRivals(net, i, j);
    }
    forall n | n in net.stores ensures NodeInv(n, net.stores[n], net.capacity) {
      StoreIsWell(net, n);
    }
  }

  lemma {:induction false} SendIsProper(net: Net, a: Action)
    requires a.Send? && Enabled(net, a) && Inv(net)
    ensures Inv(Base(net, a)) && Proper(Base(net, a), EventOf(net, a))
  {
    var d := NewData(a.source, a.destination, a.msg, a.ttl, a.id, net.now);
    var s := net.stores[a.node];
    if Has(s, a.id) {
      HeldIsIssued(net, a.node, a.id);
    }
    if Has(s, a.w.freshId) {
      HeldIsIssued(net, a.node, a.w.freshId);
    }
    IssueKeepsInv(net, d);
    RouteIsLawful(a.node, a.peers, s, d, a.w, net.capacity);
    FreshIsProper(Base(net, a), a.node, d, a.w, Route(a.node, a.peers, s, d, a.w, net.capacity));
  }

  lemma {:induction false} FreshIsProper(net: Net, n: Uuid, d: Bundle, w: World, o: Outcome)
    requires n in net.stores && d.id in net.issued && net.issued[d.id] == d && d.kind.Data? && d.status == Pending
    requires w.now == net.now && d.destination.id != n
    requires Lawful(n, net.stores[n], d, o, w, net.capacity)
    ensures Proper(net, Routed(n, d, o))
  {
    assert Core(d) == d;
    assert Version(d, net.issued);
  }

  /** Every step but a tick is a proper event. */
  lemma {:induction false} StepIsProper(net: Net, a: Action)
    requires Inv(net) && Enabled(net, a) && !a.Tick?
    ensures Inv(Base(net, a)) && Proper(Base(net, a), EventOf(net, a))
  {
    var s := net.stores[a.node];
    match a
    case Send(_, _, _, _, _, _, _, _) => SendIsProper(net, a);
    case Arrive(n, b, peers, w) =>
      if Has(s, b.id) {
        IdleIsProper(net, n);
      } else {
        ArrivalIsAcceptable(net, n, b, w);
        RouteIsLawful(n, peers, s, b, w, net.capacity);
        ArrivalIsProper(net, n, b, w, Route(n, peers, s, b, w, net.capacity));
      }
    case Resend(n, peers, w) => RetryIsLawful(n, peers, s, w, net.capacity);
    case DropExpired(n) => DropIsLawful(n, s, net.now, net.capacity);
  }

  lemma {:induction false} TickKeepsInv(net: Net, to: int)
    requires net.now <= to && Inv(net)
    ensures Inv(net.(now := to))
  {
    var net' := net.(now := to);
    forall id | id in net.issued && net.issued[id].kind.Ack?
      ensures TruthfulAck(net', net.issued[id]) && RootedAck(net', net.issued[id])
    {
      IssuedAck(net, id);
      var d := net.issued[net.issued[id].kind.ackBundleId];
      ExpiryIsPermanent(WireCopy(d), net.now, to);
    }
  }

  /** From `net` to `net'` by a proper event, in `net` itself or just after it issued a Data bundle. */
  ghost predicate Moves(net: Net, net': Net, base: Net, e: NodeEvent) {
    && Inv(base) && Proper(base, e) && net' == After(base, e)
    && (base == net || exists d: Bundle :: d.id !in net.issued && d.kind.Data? && base == Issue(net, d))
  }

  /** Only the clock moved. */
  predicate Waits(net: Net, net': Net) {
    net.now <= net'.now && net' == net.(now := net'.now)
  }

  /** Every step is a wait or a proper event. */
  lemma {:induction false} StepMoves(net: Net, a: Action) returns (base: Net, e: NodeEvent)
    requires Inv(net) && Enabled(net, a)
    ensures Waits(net, Next(net, a)) || Moves(net, Next(net, a), base, e)
  {
    base := net;
    if a.Tick? {
      e := NodeEvent(0, [], [], None, {}, {});
    } else {
      StepIsProper(net, a);
      base, e := Base(net, a), EventOf(net, a);
      if a.Send? {
        var d := NewData(a.source, a.destination, a.msg, a.ttl, a.id, net.now);
        assert base == Issue(net, d);
      }
    }
  }

  /** Every step of the network keeps the invariant. */
  lemma {:induction false} StepKeepsInv(net: Net, a: Action)
    requires Inv(net) && Enabled(net, a)
    ensures Inv(Next(net, a))
  {
    var base, e := StepMoves(net, a);
    var net' := Next(net, a);
    if Waits(net, net') {
      TickKeepsInv(net, net'.now);
    } else {
      EventKeepsInv(base, e);
    }
  }
}
