/** The registry server's list of peers (src/network/server.rs). */
module Registry {
  import opened Model

  datatype ConnectionStatus = Connected | Disconnected

  datatype PeerRecord = PeerRecord(node: Node, status: ConnectionStatus)

  datatype ServerRequest =
    | Register(node: Node)
    | GetConnectedPeers(ids: seq<Uuid>)

  datatype ServerResponse =
    | Ok
    | Peers(records: seq<PeerRecord>)

  predicate Wanted(r: PeerRecord, ids: seq<Uuid>) {
    r.status == Connected && (ids == [] || r.node.id in ids)
  }

  /** get_connected_peers: the connected records among the requested ids, or all of them for an empty request. */
  function ConnectedPeers(registry: seq<PeerRecord>, ids: seq<Uuid>): (r: seq<PeerRecord>)
    ensures forall p :: p in r <==> p in registry && Wanted(p, ids)
  {
    if registry == [] then []
    else
      assert forall p :: p in registry <==> p == registry[0] || p in registry[1..];
      (if Wanted(registry[0], ids) then [registry[0]] else []) + ConnectedPeers(registry[1..], ids)
  }

  /** The answer keeps order and multiplicity: the registry's records are looked at one by one. */
  lemma {:induction false} ConnectedPeersInOrder(before: seq<PeerRecord>, after: seq<PeerRecord>, ids: seq<Uuid>)
    ensures ConnectedPeers(before + after, ids) == ConnectedPeers(before, ids) + ConnectedPeers(after, ids)
  {
    if before == [] {
      assert before + after == after;
    } else {
      assert (before + after)[1..] == before[1..] + after;
      ConnectedPeersInOrder(before[1..], after, ids);
    }
  }

  lemma {:induction false} ConnectedPeersOfOne(r: PeerRecord, ids: seq<Uuid>)
    ensures ConnectedPeers([r], ids) == if Wanted(r, ids) then [r] else []
  {
    assert [r][1..] == [];
  }

  predicate OneRecordPerId(registry: seq<PeerRecord>) {
    forall i, j :: 0 <= i < j < |registry| ==> registry[i].node.id != registry[j].node.id
  }

  /** The registry as the server's users see it: the record of each node id. */
  ghost predicate Shows(registry: seq<PeerRecord>, directory: map<Uuid, PeerRecord>) {
    && OneRecordPerId(registry)
    && (forall r :: r in registry ==> r.node.id in directory && directory[r.node.id] == r)
    && (forall id :: id in directory ==> directory[id] in registry && directory[id].node.id == id)
  }

  function AfterRequest(d: map<Uuid, PeerRecord>, q: ServerRequest): map<Uuid, PeerRecord> {
    match q
    case Register(node) => d[node.id := PeerRecord(node, Connected)]
    case GetConnectedPeers(_) => d
  }

  function AfterRequests(d: map<Uuid, PeerRecord>, qs: seq<ServerRequest>): map<Uuid, PeerRecord> {
    if qs == [] then d else AfterRequest(AfterRequests(d, qs[..|qs| - 1]), qs[|qs| - 1])
  }

  /** A query is answered with exactly the wanted records of the directory. */
  ghost predicate AnsweredFrom(r: ServerResponse, d: map<Uuid, PeerRecord>, q: ServerRequest) {
    match q
    case Register(_) => r.Ok?
    case GetConnectedPeers(ids) =>
      r.Peers? && forall p :: p in r.records <==> p.node.id in d && d[p.node.id] == p && Wanted(p, ids)
  }

  /** Every request is answered from the directory as its predecessors left it. */
  ghost predicate AllAnswered(rs: seq<ServerResponse>, d: map<Uuid, PeerRecord>, qs: seq<ServerRequest>) {
    |rs| == |qs| &&
    (qs != [] ==>
       var last := |qs| - 1;
       AnsweredFrom(rs[last], AfterRequests(d, qs[..last]), qs[last]) && AllAnswered(rs[..last], d, qs[..last]))
  }

  /** The id a connection stands for: that of its last Register request. */
  function Registered(qs: seq<ServerRequest>): Option<Uuid> {
    if qs == [] then None
    else if qs[|qs| - 1].Register? then Some(qs[|qs| - 1].node.id)
    else Registered(qs[..|qs| - 1])
  }

  function AfterClose(d: map<Uuid, PeerRecord>, who: Option<Uuid>): map<Uuid, PeerRecord> {
    if who.Some? && who.value in d then d[who.value := d[who.value].(status := Disconnected)] else d
  }

  /** The position of a node's record, or the registry's length. */
  function Position(registry: seq<PeerRecord>, id: Uuid): (i: nat)
    ensures i <= |registry|
    ensures i < |registry| ==> registry[i].node.id == id
    ensures forall k :: 0 <= k < i ==> registry[k].node.id != id
  {
    if registry == [] || registry[0].node.id == id then 0 else 1 + Position(registry[1..], id)
  }

  lemma {:induction false} SetRecord(registry: seq<PeerRecord>, d: map<Uuid, PeerRecord>, i: nat, r: PeerRecord)
    requires Shows(registry, d) && i < |registry| && registry[i].node.id == r.node.id
    ensures Shows(registry[i := r], d[r.node.id := r])
  {
    var after := registry[i := r];
    forall x | x in after ensures x.node.id in d[r.node.id := r] && d[r.node.id := r][x.node.id] == x {
      var k :| 0 <= k < |after| && after[k] == x;
      if k != i {
        assert registry[k] in registry;
        assert registry[k].node.id != registry[i].node.id;
      }
    }
    forall id | id in d && id != r.node.id ensures d[id] in after {
      var k :| 0 <= k < |registry| && registry[k] == d[id];
      assert k != i && after[k] == d[id];
    }
    assert after[i] == r;
  }

  class Server {
    var peerRegistry: seq<PeerRecord>

    constructor ()
      ensures peerRegistry == [] && Shows(peerRegistry, map[])
    {
      peerRegistry := [];
    }

    method Enrol(node: Node, ghost directory: map<Uuid, PeerRecord>)
      requires Shows(peerRegistry, directory)
      modifies this
      ensures Shows(peerRegistry, AfterRequest(directory, Register(node)))
    {
      var record := PeerRecord(node, Connected);
      var i := Position(peerRegistry, node.id);
      if i < |peerRegistry| {
        SetRecord(peerRegistry, directory, i, record);
        peerRegistry := peerRegistry[i := record];
      } else {
        peerRegistry := peerRegistry + [record];
      }
    }

    method MarkDisconnected(who: Option<Uuid>, ghost directory: map<Uuid, PeerRecord>)
      requires Shows(peerRegistry, directory)
      modifies this
      ensures Shows(peerRegistry, AfterClose(directory, who))
    {
      if who.Some? {
        var i := Position(peerRegistry, who.value);
        if i < |peerRegistry| {
          var record := peerRegistry[i].(status := Disconnected);
          assert peerRegistry[i] in peerRegistry;
          SetRecord(peerRegistry, directory, i, record);
          peerRegistry := peerRegistry[i := record];
        }
      }
    }

    method HandleRequest(request: ServerRequest, ghost directory: map<Uuid, PeerRecord>)
      returns (response: ServerResponse)
      requires Shows(peerRegistry, directory)
      modifies this
      ensures Shows(peerRegistry, AfterRequest(directory, request))
      ensures AnsweredFrom(response, directory, request)
      ensures request.GetConnectedPeers? ==>
                response == Peers(ConnectedPeers(old(peerRegistry), request.ids)) && peerRegistry == old(peerRegistry)
    {
      match request
      case Register(node) =>
        Enrol(node, directory);
        response := Ok;
      case GetConnectedPeers(ids) =>
        response := Peers(ConnectedPeers(peerRegistry, ids));
    }

    /** One connection, from its first request to its close, undisturbed by others. */
    method HandleClient(requests: seq<ServerRequest>, ghost directory: map<Uuid, PeerRecord>)
      returns (responses: seq<ServerResponse>)
      requires Shows(peerRegistry, directory)
      modifies this
      ensures Shows(peerRegistry, AfterClose(AfterRequests(directory, requests), Registered(requests)))
      ensures AllAnswered(responses, directory, requests)
    {
      var nodeId: Option<Uuid> := None;
      responses := [];
      for i := 0 to |requests|
        invariant Shows(peerRegistry, AfterRequests(directory, requests[..i]))
        invariant nodeId == Registered(requests[..i])
        invariant AllAnswered(responses, directory, requests[..i])
      {
        assert requests[..i + 1][..i] == requests[..i];
        if requests[i].Register? {
          nodeId := Some(requests[i].node.id);
        }
        var response := HandleRequest(requests[i], AfterRequests(directory, requests[..i]));
        assert (responses + [response])[..i] == responses;
        responses := responses + [response];
      }
      assert requests[..|requests|] == requests;
      MarkDisconnected(nodeId, AfterRequests(directory, requests));
    }
  }

  /** Closing a connection disconnects the node it last registered and no other: a node registered earlier
      on the same connection stays Connected. */
  lemma {:induction false} OnlyTheLastRegistrationCloses(
      d: map<Uuid, PeerRecord>, qs: seq<ServerRequest>, i: nat)
    requires i < |qs| && qs[i].Register?
    ensures var after := AfterClose(AfterRequests(d, qs), Registered(qs));
            var id := qs[i].node.id;
            id in after && (after[id].status == Disconnected <==> Registered(qs) == Some(id))
  {
    RegisteredIsConnected(d, qs, i);
  }

  lemma {:induction false} RegisteredIsConnected(d: map<Uuid, PeerRecord>, qs: seq<ServerRequest>, i: nat)
    requires i < |qs| && qs[i].Register?
    ensures qs[i].node.id in AfterRequests(d, qs)
    ensures AfterRequests(d, qs)[qs[i].node.id].status == Connected
  {
    if i < |qs| - 1 {
      RegisteredIsConnected(d, qs[..|qs| - 1], i);
    }
  }

  // ---- Many connections ----------------------------------------------------------------------

  /** What happens at the server, in the order in which the connections get hold of the registry. */
  datatype ConnectionEvent =
    | Asks(connection: nat, request: ServerRequest)
    | Closes(connection: nat)

  /** The id that a connection last registered, while it is open. */
  function RegisteredOn(events: seq<ConnectionEvent>, c: nat): Option<Uuid> {
    if events == [] then None
    else
      var e := events[|events| - 1];
      if e.connection == c && e.Closes? then None
      else if e.connection == c && e.request.Register? then Some(e.request.node.id)
      else RegisteredOn(events[..|events| - 1], c)
  }

  /** The directory of a freshly started server after these events: HandleRequest and MarkDisconnected, one by one. */
  function DirectoryAfter(events: seq<ConnectionEvent>): map<Uuid, PeerRecord> {
    if events == [] then map[]
    else
      var init, e := events[..|events| - 1], events[|events| - 1];
      match e
      case Asks(_, q) => AfterRequest(DirectoryAfter(init), q)
      case Closes(c) => AfterClose(DirectoryAfter(init), RegisteredOn(init, c))
  }

  predicate Registers(e: ConnectionEvent, id: Uuid) {
    e.Asks? && e.request.Register? && e.request.node.id == id
  }

  /** At position `j` a connection closes that had last registered `id`. */
  predicate ClosesFor(events: seq<ConnectionEvent>, j: nat, id: Uuid)
    requires j < |events|
  {
    events[j].Closes? && RegisteredOn(events[..j], events[j].connection) == Some(id)
  }

  /** Position `i` registers `id`, and no connection whose last registration was of `id` closes afterwards. */
  predicate LastRegistered(events: seq<ConnectionEvent>, i: nat, id: Uuid)
    requires i < |events|
  {
    Registers(events[i], id) && forall j :: i < j < |events| ==> !ClosesFor(events, j, id)
  }

  predicate ShownConnected(events: seq<ConnectionEvent>, id: Uuid) {
    id in DirectoryAfter(events) && DirectoryAfter(events)[id].status == Connected
  }

  lemma {:induction false} ClosesForBefore(events: seq<ConnectionEvent>, j: nat, id: Uuid)
    requires j + 1 < |events|
    ensures ClosesFor(events, j, id) == ClosesFor(events[..|events| - 1], j, id)
  {
    assert events[..|events| - 1][..j] == events[..j];
  }

  /** Over any interleaving of any connections: a node is shown as connected if and only if it was registered and no
      connection whose last registration it was has closed since. */
  lemma {:induction false} ShownConnectedIff(events: seq<ConnectionEvent>, id: Uuid)
    ensures ShownConnected(events, id) <==> exists i :: 0 <= i < |events| && LastRegistered(events, i, id)
  {
    if events != [] {
      var last := |events| - 1;
      var init := events[..last];
      ShownConnectedIff(init, id);
      forall j | 0 <= j < last ensures ClosesFor(events, j, id) == ClosesFor(init, j, id) {
        ClosesForBefore(events, j, id);
      }
      forall i | 0 <= i < last
        ensures LastRegistered(events, i, id) <==> LastRegistered(init, i, id) && !ClosesFor(events, last, id)
      {
        assert init[i] == events[i];
      }
      assert LastRegistered(events, last, id) <==> Registers(events[last], id);
    }
  }

  /** A node is not hidden by the close of a connection that registered another one since. */
  lemma {:induction false} EarlierRegistrationStays(c: nat, a: Node, b: Node)
    requires a.id != b.id
    ensures ShownConnected([Asks(c, Register(a)), Asks(c, Register(b)), Closes(c)], a.id)
  {
    var events := [Asks(c, Register(a)), Asks(c, Register(b)), Closes(c)];
    assert events[..2] == [Asks(c, Register(a)), Asks(c, Register(b))];
    assert RegisteredOn(events[..2], c) == Some(b.id);
    assert !ClosesFor(events, 1, a.id) && !ClosesFor(events, 2, a.id);
    assert LastRegistered(events, 0, a.id);
    ShownConnectedIff(events, a.id);
  }

  /** A node that registers again on a new connection is shown as disconnected once its old connection closes. */
  lemma {:induction false} LateCloseDisconnects(first: nat, second: nat, node: Node)
    requires first != second
    ensures var events := [Asks(first, Register(node)), Asks(second, Register(node)), Closes(first)];
            RegisteredOn(events, second) == Some(node.id) && !ShownConnected(events, node.id)
  {
    var e0, e1, e2 := Asks(first, Register(node)), Asks(second, Register(node)), Closes(first);
    assert [e0, e1, e2][..2] == [e0, e1] && [e0, e1][..1] == [e0];
    assert RegisteredOn([e0], first) == Some(node.id);
    assert RegisteredOn([e0, e1], first) == Some(node.id);
    assert node.id in DirectoryAfter([e0, e1]);
  }
}
