/** What holds over every run of the network. */
module Runs {
  import opened Model
  import opened Store
  import opened NodeStep
  import opened NodeFacts
  import opened Network

  /** The states of a run and the steps between them. */
  predicate IsRun(states: seq<Net>, steps: seq<Action>) {
    && |states| == |steps| + 1
    && Initial(states[0])
    && forall i {:trigger Follows(states, steps, i)} :: 0 <= i < |steps| ==> Follows(states, steps, i)
  }

  predicate Follows(states: seq<Net>, steps: seq<Action>, i: nat)
    requires i < |steps| && |states| == |steps| + 1
  {
    Enabled(states[i], steps[i]) && states[i + 1] == Next(states[i], steps[i])
  }

  /** The invariant holds in every state of every run. */
  lemma {:induction false} InvAlways(states: seq<Net>, steps: seq<Action>, i: nat)
    requires IsRun(states, steps) && i < |states|
    ensures Inv(states[i])
  {
    if i > 0 {
      InvAlways(states, steps, i - 1);
      assert Follows(states, steps, i - 1);
      StepKeepsInv(states[i - 1], steps[i - 1]);
    }
  }

  lemma {:induction false} RunMoves(states: seq<Net>, steps: seq<Action>, i: nat) returns (base: Net, e: NodeEvent)
    requires IsRun(states, steps) && i + 1 < |states|
    ensures Inv(states[i]) && Inv(states[i + 1])
    ensures Waits(states[i], states[i + 1]) || Moves(states[i], states[i + 1], base, e)
  {
    InvAlways(states, steps, i);
    InvAlways(states, steps, i + 1);
    assert Follows(states, steps, i);
    base, e := StepMoves(states[i], steps[i]);
  }

  /** Time does not run backwards, nodes stay, and an issued bundle is never issued anew. */
  predicate Extends(net: Net, net': Net) {
    && net.now <= net'.now
    && net'.stores.Keys == net.stores.Keys
    && net'.capacity == net.capacity
    && forall id :: id in net.issued ==> id in net'.issued && net'.issued[id] == net.issued[id]
  }

  lemma {:induction false} MoveExtends(net: Net, net': Net, base: Net, e: NodeEvent)
    requires Moves(net, net', base, e)
    ensures Extends(net, net')
  {
    assert Extends(net, base);
    EventExtends(base, e);
  }

  lemma {:induction false} EventExtends(net: Net, e: NodeEvent)
    requires Proper(net, e)
    ensures Extends(net, After(net, e))
  {
    assert net.stores[e.node := e.store].Keys == net.stores.Keys;
  }

  lemma {:induction false} RunStep(states: seq<Net>, steps: seq<Action>, i: nat)
    requires IsRun(states, steps) && i + 1 < |states|
    ensures Inv(states[i]) && Inv(states[i + 1]) && Extends(states[i], states[i + 1])
  {
    var base, e := RunMoves(states, steps, i);
    if !Waits(states[i], states[i + 1]) {
      MoveExtends(states[i], states[i + 1], base, e);
    }
  }

  lemma {:induction false} RunExtends(states: seq<Net>, steps: seq<Action>, j: nat, i: nat)
    requires IsRun(states, steps) && j <= i < |states|
    ensures Extends(states[j], states[i])
    decreases i
  {
    if j < i {
      RunExtends(states, steps, j, i - 1);
      RunStep(states, steps, i - 1);
    }
  }

  // ---- Phases --------------------------------------------------------------------------------

  /** How far a node has come with a Data id: 0 unknown, 1 the Data is stored, 2 an ACK for it is stored. */
  function Phase(s: seq<Bundle>, id: Uuid): nat {
    if HasAck(s, id) then 2 else if Has(s, id) then 1 else 0
  }

  lemma {:induction false} EventKeepsAck(net: Net, e: NodeEvent, id: Uuid)
    requires Inv(net) && Proper(net, e) && HasAck(net.stores[e.node], id)
    requires id in net.issued && net.issued[id].kind.Data? && Live(net.issued[id], net.now)
    ensures HasAck(e.store, id)
  {
    var a := HeldAck(net, e.node, id);
    IssuedAck(net, a);
    AckOutlives(net.issued[a], net.issued[id], net.now);
    EventKeepsLive(net, e, a);
    EventKeepsInv(net, e);
    HeldIdIsAck(After(net, e), e.node, a, id);
  }

  lemma {:induction false} EventPhase(net: Net, e: NodeEvent, id: Uuid)
    requires Inv(net) && Proper(net, e)
    requires id in net.issued && net.issued[id].kind.Data? && Live(net.issued[id], net.now)
    ensures Phase(e.store, id) >= Phase(net.stores[e.node], id)
  {
    if HasAck(net.stores[e.node], id) {
      EventKeepsAck(net, e, id);
    } else if Has(net.stores[e.node], id) && id !in e.dropped {
      EventKeepsLive(net, e, id);
    }
  }

  /** A store that holds the id of an issued ACK holds an ACK. */
  lemma {:induction false} HeldIdIsAck(net: Net, n: Uuid, a: Uuid, id: Uuid)
    requires Inv(net) && n in net.stores && Has(net.stores[n], a) && a in net.issued && IsAckFor(net.issued[a], id)
    ensures HasAck(net.stores[n], id)
  {
    var x :| x in net.stores[n] && x.id == a;
    VersionFields(x, net.issued);
    assert IsAckFor(x, id);
  }

  /** No step moves a live Data id backwards at any node. */
  lemma {:induction false} MovePhase(net: Net, net': Net, base: Net, e: NodeEvent, n: Uuid, id: Uuid)
    requires Moves(net, net', base, e) && n in net.stores
    requires id in net.issued && net.issued[id].kind.Data? && Live(net.issued[id], net.now)
    ensures n in net'.stores && Phase(net'.stores[n], id) >= Phase(net.stores[n], id)
  {
    if e.node == n {
      EventPhase(base, e, id);
    }
  }

  lemma {:induction false} RunPhaseStep(states: seq<Net>, steps: seq<Action>, i: nat, n: Uuid, id: Uuid)
    requires IsRun(states, steps) && i + 1 < |states| && n in states[i].stores
    requires id in states[i].issued && states[i].issued[id].kind.Data?
    requires Live(states[i].issued[id], states[i].now)
    ensures n in states[i + 1].stores && Phase(states[i + 1].stores[n], id) >= Phase(states[i].stores[n], id)
  {
    var base, e := RunMoves(states, steps, i);
    if !Waits(states[i], states[i + 1]) {
      MovePhase(states[i], states[i + 1], base, e, n, id);
    }
  }

  /** No resurrection: over any stretch of any run, no node goes backwards with a Data id that is still live
      at the end: acknowledged Data never returns, and stored Data is never forgotten. */
  lemma {:induction false} NoResurrection(states: seq<Net>, steps: seq<Action>, j: nat, i: nat, n: Uuid, id: Uuid)
    requires IsRun(states, steps) && j <= i < |states| && n in states[j].stores
    requires id in states[j].issued && states[j].issued[id].kind.Data?
    requires Live(states[j].issued[id], states[i].now)
    ensures n in states[i].stores
    ensures Phase(states[i].stores[n], id) >= Phase(states[j].stores[n], id)
    decreases i
  {
    if j < i {
      RunExtends(states, steps, j, i - 1);
      RunStep(states, steps, i - 1);
      ExpiryIsPermanent(WireCopy(states[j].issued[id]), states[i - 1].now, states[i].now);
      NoResurrection(states, steps, j, i - 1, n, id);
      RunPhaseStep(states, steps, i - 1, n, id);
    }
  }

  // ---- No live bundle is lost ----------------------------------------------------------------

  /** A version of the issued bundle `id`, its content untouched, is stored at `n`. */
  predicate Keeps(net: Net, n: Uuid, id: Uuid) {
    n in net.stores && exists x :: x in net.stores[n] && x.id == id && Version(x, net.issued)
  }

  /** Data that its source once stored is, as long as it is live, at its source or at its destination. */
  lemma {:induction false} NoLiveBundleLost(states: seq<Net>, steps: seq<Action>, j: nat, i: nat, id: Uuid)
    requires IsRun(states, steps) && j <= i < |states|
    requires id in states[j].issued && states[j].issued[id].kind.Data?
    requires Keeps(states[j], states[j].issued[id].source.id, id)
    requires Live(states[j].issued[id], states[i].now)
    ensures var d := states[j].issued[id];
            Keeps(states[i], d.source.id, id) || Keeps(states[i], d.destination.id, id)
  {
    var d := states[j].issued[id];
    NoResurrection(states, steps, j, i, d.source.id, id);
    RunExtends(states, steps, j, i);
    InvAlways(states, steps, i);
    var net := states[i];
    if Has(net.stores[d.source.id], id) {
      HeldIsKept(net, d.source.id, id);
    } else {
      var a := HeldAck(net, d.source.id, id);
      IssuedAck(net, a);
      HeldIsKept(net, d.destination.id, id);
    }
  }

  lemma {:induction false} HeldIsKept(net: Net, n: Uuid, id: Uuid)
    requires Inv(net) && n in net.stores && Has(net.stores[n], id)
    ensures Keeps(net, n, id)
  {
    var x :| x in net.stores[n] && x.id == id;
    assert Version(x, net.issued);
  }

  // ---- ACKs ----------------------------------------------------------------------------------

  /** `b` is in some store or on the wire. */
  predicate Seen(net: Net, b: Bundle) {
    OnWire(net, b) || exists n :: n in net.stores && b in net.stores[n]
  }

  lemma {:induction false} SeenIsIssued(net: Net, b: Bundle)
    requires Inv(net) && Seen(net, b)
    ensures b.id in net.issued && b.kind == net.issued[b.id].kind
    ensures b.source == net.issued[b.id].source && b.destination == net.issued[b.id].destination
    ensures b.ttl == net.issued[b.id].ttl
  {
    if !OnWire(net, b) {
      var n :| n in net.stores && b in net.stores[n];
      VersionFields(b, net.issued);
    }
  }

  /** Over any run, all ACKs for one Data id, wherever and whenever they are seen, have one id. */
  lemma {:induction false} OneAckPerData(states: seq<Net>, steps: seq<Action>, i: nat, j: nat, x: Bundle, y: Bundle)
    requires IsRun(states, steps) && i < |states| && j < |states|
    requires Seen(states[i], x) && Seen(states[j], y)
    requires x.kind.Ack? && IsAckFor(y, x.kind.ackBundleId)
    ensures x.id == y.id
  {
    var k := if i <= j then j else i;
    RunExtends(states, steps, i, k);
    RunExtends(states, steps, j, k);
    InvAlways(states, steps, i);
    InvAlways(states, steps, j);
    InvAlways(states, steps, k);
    SeenIsIssued(states[i], x);
    SeenIsIssued(states[j], y);
    NoRivals(states[k], x.id, y.id);
  }

  /** Hence no store of a reachable state ever holds two ACKs for one Data id. */
  lemma {:induction false} OneAckPerStore(states: seq<Net>, steps: seq<Action>, i: nat, n: Uuid, x: Bundle, y: Bundle)
    requires IsRun(states, steps) && i < |states| && n in states[i].stores
    requires x in states[i].stores[n] && y in states[i].stores[n]
    requires x.kind.Ack? && IsAckFor(y, x.kind.ackBundleId)
    ensures x == y
  {
    OneAckPerData(states, steps, i, i, x, y);
    InvAlways(states, steps, i);
    StoreIsWell(states[i], n);
    SameId(states[i].stores[n], x, y);
  }

  /** `x` answers a Data bundle that its destination holds in `net` as Delivered. */
  predicate DeliveredFor(net: Net, x: Bundle) {
    x.kind.Ack? && x.source.id in net.stores
    && exists d :: d in net.stores[x.source.id] && d.id == x.kind.ackBundleId && d.kind.Data?
         && d.status == Delivered
         && d.destination == x.source && d.source == x.destination && d.ttl == x.ttl
  }

  /** An ACK that a step adds answers Data that is live. */
  lemma {:induction false} MoveMintsLive(net: Net, net': Net, base: Net, e: NodeEvent, id: Uuid)
    requires Moves(net, net', base, e)
    requires id in net'.issued && id !in net.issued && net'.issued[id].kind.Ack?
    ensures var d := net'.issued[id].kind.ackBundleId; d in net'.issued && Live(net'.issued[d], net'.now)
  {
    assert e.minted.Some? && e.minted.value.id == id;
    assert MintedHere(base, e.node, e.store, e.minted.value);
  }

  /** Every issued ACK had its Data Delivered at the destination in some state so far. */
  lemma {:induction false} IssuedAckIsTrue(states: seq<Net>, steps: seq<Action>, i: nat, id: Uuid) returns (j: nat)
    requires IsRun(states, steps) && i < |states| && id in states[i].issued && states[i].issued[id].kind.Ack?
    ensures j <= i && DeliveredFor(states[j], states[i].issued[id])
  {
    InvAlways(states, steps, i);
    if i > 0 && id in states[i - 1].issued {
      RunExtends(states, steps, i - 1, i);
      j := IssuedAckIsTrue(states, steps, i - 1, id);
    } else {
      j := i;
      RunAddsLiveAck(states, steps, i, id);
      LiveAckIsTrue(states[i], states[i].issued[id]);
    }
  }

  lemma {:induction false} RunAddsLiveAck(states: seq<Net>, steps: seq<Action>, i: nat, id: Uuid)
    requires IsRun(states, steps) && i < |states| && id in states[i].issued && states[i].issued[id].kind.Ack?
    requires i > 0 ==> id !in states[i - 1].issued
    ensures var d := states[i].issued[id].kind.ackBundleId;
            d in states[i].issued && Live(states[i].issued[d], states[i].now)
  {
    if i > 0 {
      var base, e := RunMoves(states, steps, i - 1);
      if !Waits(states[i - 1], states[i]) {
        MoveMintsLive(states[i - 1], states[i], base, e, id);
      }
    }
  }

  /** Right now, if its Data is live, an issued ACK tells the truth. */
  lemma {:induction false} LiveAckIsTrue(net: Net, a: Bundle)
    requires Inv(net) && a.kind.Ack? && a.id in net.issued && net.issued[a.id] == a
    requires a.kind.ackBundleId in net.issued && Live(net.issued[a.kind.ackBundleId], net.now)
    ensures DeliveredFor(net, a)
  {
    IssuedAck(net, a.id);
    var n := a.source.id;
    var d :| d in net.stores[n] && d.id == a.kind.ackBundleId;
    VersionFields(d, net.issued);
    StoreIsWell(net, n);
    assert StatusFits(n, d);
  }

  /** Every ACK ever seen names Data that its destination had stored as Delivered, with endpoints swapped and
      the same TTL. */
  lemma {:induction false} AcksTellTheTruth(states: seq<Net>, steps: seq<Action>, i: nat, x: Bundle) returns (j: nat)
    requires IsRun(states, steps) && i < |states| && Seen(states[i], x) && x.kind.Ack?
    ensures j <= i && DeliveredFor(states[j], x)
  {
    InvAlways(states, steps, i);
    SeenIsIssued(states[i], x);
    j := IssuedAckIsTrue(states, steps, i, x.id);
  }

  // ---- Stores --------------------------------------------------------------------------------

  /** Tombstone exclusion, live or not: only a Data bundle's destination ever stores it beside an ACK for it. */
  lemma {:induction false} TombstoneExclusion(states: seq<Net>, steps: seq<Action>, i: nat, n: Uuid, d: Bundle,
                                              a: Bundle)
    requires IsRun(states, steps) && i < |states| && n in states[i].stores
    requires d in states[i].stores[n] && a in states[i].stores[n] && d.kind.Data? && IsAckFor(a, d.id)
    ensures d.destination.id == n
  {
    InvAlways(states, steps, i);
    StoreIsWell(states[i], n);
  }

  /** Status: a stored bundle is Delivered exactly at its destination, never Expired; hence a retry never offers
      a bundle at the end of its way, and every store keeps distinct ids within capacity. */
  lemma {:induction false} StatusAlwaysFits(states: seq<Net>, steps: seq<Action>, i: nat, n: Uuid, b: Bundle)
    requires IsRun(states, steps) && i < |states| && n in states[i].stores && b in states[i].stores[n]
    ensures b.status == Delivered <==> b.destination.id == n
    ensures b.status != Expired
    ensures b.destination.id == n ==> b !in Filter(states[i].stores[n], IsRetryable())
    ensures WellFormed(states[i].stores[n], states[i].capacity)
  {
    InvAlways(states, steps, i);
    StoreIsWell(states[i], n);
    assert StatusFits(n, b);
  }
}
