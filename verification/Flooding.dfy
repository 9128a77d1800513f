/** Flooding dies out: while no Data is created and all of it is live, at most two bundles are inserted into stores per
    node and Data id, the Data and its ACK. */
module Flooding {
  import opened Model
  import opened Store
  import opened NodeStep
  import opened NodeFacts
  import opened Network
  import opened Runs

  /** How many phases node `n` has left for a Data id. */
  function Left(net: Net, n: Uuid, id: Uuid): nat {
    if n in net.stores then 2 - Phase(net.stores[n], id) else 0
  }

  function Total(net: Net, pairs: seq<(Uuid, Uuid)>): nat {
    if pairs == [] then 0 else Left(net, pairs[0].0, pairs[0].1) + Total(net, pairs[1..])
  }

  function Row(n: Uuid, ids: seq<Uuid>): (r: seq<(Uuid, Uuid)>)
    ensures |r| == |ids|
    ensures forall p :: p in r <==> p.0 == n && p.1 in ids
  {
    if ids == [] then [] else [(n, ids[0])] + Row(n, ids[1..])
  }

  /** Every node with every id. */
  function Grid(nodes: seq<Uuid>, ids: seq<Uuid>): (r: seq<(Uuid, Uuid)>)
    ensures forall p :: p in r <==> p.0 in nodes && p.1 in ids
  {
    if nodes == [] then []
    else
      assert nodes == [nodes[0]] + nodes[1..];
      Row(nodes[0], ids) + Grid(nodes[1..], ids)
  }

  lemma {:induction false} GridSize(nodes: seq<Uuid>, ids: seq<Uuid>)
    ensures |Grid(nodes, ids)| == |nodes| * |ids|
  {
    if nodes != [] {
      GridSize(nodes[1..], ids);
      assert |nodes| * |ids| == |ids| + (|nodes| - 1) * |ids|;
    }
  }

  lemma {:induction false} TotalBound(net: Net, pairs: seq<(Uuid, Uuid)>)
    ensures Total(net, pairs) <= 2 * |pairs|
  {
    if pairs != [] {
      TotalBound(net, pairs[1..]);
    }
  }

  lemma {:induction false} TotalSplits(net: Net, before: seq<(Uuid, Uuid)>, after: seq<(Uuid, Uuid)>)
    ensures Total(net, before + after) == Total(net, before) + Total(net, after)
  {
    if before == [] {
      assert before + after == after;
    } else {
      assert (before + after)[1..] == before[1..] + after;
      TotalSplits(net, before[1..], after);
    }
  }

  // ---- Counting inserted bundles -------------------------------------------------------------

  /** The Data that a bundle is or acknowledges. */
  function DataOf(b: Bundle): Uuid {
    if b.kind.Ack? then b.kind.ackBundleId else b.id
  }

  /** The ids that are in `t` and not in `s`. */
  function NewIds(s: seq<Bundle>, t: seq<Bundle>): set<Uuid> {
    set b | b in t && !Has(s, b.id) :: b.id
  }

  /** Those of bundles for one of these Data ids. */
  function NewFor(s: seq<Bundle>, t: seq<Bundle>, ids: seq<Uuid>): set<Uuid> {
    set b | b in t && !Has(s, b.id) && DataOf(b) in ids :: b.id
  }

  function StoreOf(net: Net, n: Uuid): seq<Bundle> {
    if n in net.stores then net.stores[n] else []
  }

  /** The number of bundles that these nodes gain between two states. */
  function Gained(net: Net, net': Net, nodes: seq<Uuid>): nat {
    if nodes == [] then 0
    else |NewIds(StoreOf(net, nodes[0]), StoreOf(net', nodes[0]))| + Gained(net, net', nodes[1..])
  }

  /** The number of bundles inserted between two states of a run, step by step. */
  function Insertions(states: seq<Net>, i: nat, k: nat, nodes: seq<Uuid>): nat
    requires i <= k < |states|
    decreases k
  {
    if i == k then 0 else Insertions(states, i, k - 1, nodes) + Gained(states[k - 1], states[k], nodes)
  }

  /** All Data of `net'` was already issued in `net` and is still live. */
  predicate Settled(net: Net, net': Net) {
    forall id :: id in net'.issued && net'.issued[id].kind.Data? ==>
      id in net.issued && net.issued[id] == net'.issued[id] && Live(net'.issued[id], net'.now)
  }

  /** An ACK new to a store is the first one there for its Data id. */
  lemma {:induction false} InsertedAck(net: Net, net': Net, n: Uuid, x: Bundle)
    requires Inv(net) && Inv(net') && Extends(net, net') && x.kind.Ack?
    requires n in net.stores && x in net'.stores[n] && !Has(net.stores[n], x.id)
    ensures x.kind.ackBundleId in net'.issued && net'.issued[x.kind.ackBundleId].kind.Data?
    ensures HasAck(net'.stores[n], x.kind.ackBundleId) && !HasAck(net.stores[n], x.kind.ackBundleId)
  {
    var id := x.kind.ackBundleId;
    assert Version(x, net'.issued);
    VersionFields(x, net'.issued);
    assert IsAckFor(x, id);
    IssuedAck(net', x.id);
    if HasAck(net.stores[n], id) {
      var a := HeldAck(net, n, id);
      NoRivals(net', a, x.id);
    }
  }

  /** Data new to a store meets no ACK there. */
  lemma {:induction false} InsertedData(net: Net, net': Net, n: Uuid, x: Bundle)
    requires Inv(net) && Inv(net') && x.kind.Data? && x.id in net.issued
    requires n in net.stores && n in net'.stores && x in net'.stores[n] && !Has(net.stores[n], x.id)
    requires net.issued[x.id].kind.Data? && net.issued[x.id].destination == x.destination
    requires Live(net.issued[x.id], net.now)
    requires Phase(net'.stores[n], x.id) >= Phase(net.stores[n], x.id)
    ensures Phase(net'.stores[n], x.id) > Phase(net.stores[n], x.id)
  {
    if HasAck(net.stores[n], x.id) {
      var a :| a in net'.stores[n] && IsAckFor(a, x.id);
      StoreIsWell(net', n);
      assert x.destination.id == n;
      NoAckWithoutData(net, n, x.id);
    }
  }

  /** An inserted bundle moves its Data id forward at its node. */
  lemma {:induction false} InsertAdvances(net: Net, net': Net, base: Net, e: NodeEvent, n: Uuid, x: Bundle)
    returns (id: Uuid)
    requires Inv(net) && Inv(net') && Moves(net, net', base, e) && Settled(net, net')
    requires n in net.stores && n in net'.stores && x in net'.stores[n] && !Has(net.stores[n], x.id)
    ensures id in net'.issued && net'.issued[id].kind.Data?
    ensures Phase(net'.stores[n], id) > Phase(net.stores[n], id)
  {
    assert Extends(net, net') by { MoveExtends(net, net', base, e); }
    if x.kind.Ack? {
      id := x.kind.ackBundleId;
      InsertedAck(net, net', n, x);
    } else {
      id := x.id;
      DataAdvances(net, net', base, e, n, x);
    }
  }

  lemma {:induction false} DataAdvances(net: Net, net': Net, base: Net, e: NodeEvent, n: Uuid, x: Bundle)
    requires Inv(net) && Inv(net') && Moves(net, net', base, e) && Settled(net, net') && Extends(net, net')
    requires n in net.stores && n in net'.stores && x in net'.stores[n] && !Has(net.stores[n], x.id)
    requires !x.kind.Ack?
    ensures x.id in net'.issued && net'.issued[x.id].kind.Data?
    ensures Phase(net'.stores[n], x.id) > Phase(net.stores[n], x.id)
  {
    InsertedIsSettled(net, net', n, x);
    assert Phase(net'.stores[n], x.id) >= Phase(net.stores[n], x.id) by {
      MovePhase(net, net', base, e, n, x.id);
    }
    InsertedData(net, net', n, x);
  }

  lemma {:induction false} InsertedIsSettled(net: Net, net': Net, n: Uuid, x: Bundle)
    requires Inv(net') && Settled(net, net') && Extends(net, net')
    requires n in net'.stores && x in net'.stores[n] && !x.kind.Ack?
    ensures x.kind.Data? && x.id in net.issued && x.id in net'.issued && net'.issued[x.id] == net.issued[x.id]
    ensures net.issued[x.id].kind.Data? && net.issued[x.id].destination == x.destination
    ensures Live(net.issued[x.id], net.now)
  {
    assert Version(x, net'.issued);
    VersionFields(x, net'.issued);
    ExpiryIsPermanent(WireCopy(net.issued[x.id]), net.now, net'.now);
  }

  /** A set within a pair, counted. */
  lemma {:induction false} AtMostTwo(s: set<Uuid>, hasX: bool, x: Uuid, hasY: bool, y: Uuid)
    requires forall z :: z in s ==> (hasX && z == x) || (hasY && z == y)
    ensures |s| <= (if hasX then 1 else 0) + (if hasY then 1 else 0)
  {
    var bound := (if hasX then {x} else {}) + (if hasY then {y} else {});
    assert s <= bound;
    Smaller(s, bound);
  }

  lemma {:induction false} Smaller(s: set<Uuid>, bound: set<Uuid>)
    requires s <= bound
    ensures |s| <= |bound|
  {
    assert bound == s + (bound - s);
  }

  /** The id of a bundle the node gained for this Data id, the Data or an ACK. */
  predicate Gains(s: seq<Bundle>, t: seq<Bundle>, b: Bundle, id: Uuid) {
    b in t && !Has(s, b.id) && DataOf(b) == id
  }

  predicate GainsData(s: seq<Bundle>, t: seq<Bundle>, id: Uuid) {
    exists x :: x in t && Gains(s, t, x, id) && !x.kind.Ack?
  }

  predicate GainsAck(s: seq<Bundle>, t: seq<Bundle>, id: Uuid) {
    exists x :: x in t && Gains(s, t, x, id) && x.kind.Ack?
  }

  lemma {:induction false} GainedDataWasUnknown(net: Net, net': Net, base: Net, e: NodeEvent, n: Uuid, id: Uuid)
    requires Inv(net) && Inv(net') && Moves(net, net', base, e) && Settled(net, net') && Extends(net, net')
    requires n in net.stores && n in net'.stores && GainsData(net.stores[n], net'.stores[n], id)
    ensures Phase(net.stores[n], id) == 0 && Phase(net'.stores[n], id) >= 1
  {
    var s, t := net.stores[n], net'.stores[n];
    var x :| x in t && Gains(s, t, x, id) && !x.kind.Ack?;
    assert x.id == id && !Has(s, id);
    assert Phase(t, id) > Phase(s, id) by {
      DataAdvances(net, net', base, e, n, x);
    }
  }

  /** A node gains at most one ACK for a Data id, and had none. */
  lemma {:induction false} GainedAckIsFirst(net: Net, net': Net, n: Uuid, id: Uuid) returns (ackId: Uuid)
    requires Inv(net) && Inv(net') && Extends(net, net')
    requires n in net.stores && n in net'.stores && GainsAck(net.stores[n], net'.stores[n], id)
    ensures Phase(net.stores[n], id) <= 1 && Phase(net'.stores[n], id) == 2
    ensures forall y :: y in net'.stores[n] && Gains(net.stores[n], net'.stores[n], y, id) && y.kind.Ack? ==>
              y.id == ackId
  {
    var x :| x in net'.stores[n] && Gains(net.stores[n], net'.stores[n], x, id) && x.kind.Ack?;
    InsertedAck(net, net', n, x);
    ackId := x.id;
    forall y | y in net'.stores[n] && Gains(net.stores[n], net'.stores[n], y, id) && y.kind.Ack?
      ensures y.id == ackId
    {
      OneGainedAck(net', n, x, y);
    }
  }

  /** The bundles that a node gains for one Data id are paid for by the phases it moves on. */
  lemma {:induction false} OneIdPays(net: Net, net': Net, base: Net, e: NodeEvent, n: Uuid, id: Uuid)
    requires Inv(net) && Inv(net') && Moves(net, net', base, e) && Settled(net, net') && Extends(net, net')
    requires n in net.stores && n in net'.stores && id in net'.issued && net'.issued[id].kind.Data?
    ensures |NewFor(net.stores[n], net'.stores[n], [id])| + Left(net', n, id) <= Left(net, n, id)
  {
    var s, t := net.stores[n], net'.stores[n];
    assert Phase(t, id) >= Phase(s, id) by {
      ExpiryIsPermanent(WireCopy(net.issued[id]), net.now, net'.now);
      MovePhase(net, net', base, e, n, id);
    }
    if GainsData(s, t, id) {
      GainedDataWasUnknown(net, net', base, e, n, id);
    }
    var ackId: Uuid := 0;
    if GainsAck(s, t, id) {
      ackId := GainedAckIsFirst(net, net', n, id);
    }
    CountNewFor(s, t, id, ackId);
  }

  lemma {:induction false} CountNewFor(s: seq<Bundle>, t: seq<Bundle>, id: Uuid, ackId: Uuid)
    requires forall y :: y in t && Gains(s, t, y, id) && y.kind.Ack? ==> y.id == ackId
    ensures |NewFor(s, t, [id])| <= (if GainsData(s, t, id) then 1 else 0) + (if GainsAck(s, t, id) then 1 else 0)
  {
    forall z | z in NewFor(s, t, [id])
      ensures (GainsData(s, t, id) && z == id) || (GainsAck(s, t, id) && z == ackId)
    {
      var b :| b in t && !Has(s, b.id) && DataOf(b) in [id] && b.id == z;
      assert Gains(s, t, b, id);
    }
    AtMostTwo(NewFor(s, t, [id]), GainsData(s, t, id), id, GainsAck(s, t, id), ackId);
  }

  lemma {:induction false} OneGainedAck(net: Net, n: Uuid, x: Bundle, y: Bundle)
    requires Inv(net) && n in net.stores && x in net.stores[n] && y in net.stores[n]
    requires x.kind.Ack? && y.kind.Ack? && y.kind.ackBundleId == x.kind.ackBundleId
    ensures y.id == x.id
  {
    assert Version(x, net.issued) && Version(y, net.issued);
    VersionFields(x, net.issued);
    VersionFields(y, net.issued);
    NoRivals(net, x.id, y.id);
  }

  lemma {:induction false} IdsPay(net: Net, net': Net, base: Net, e: NodeEvent, n: Uuid, ids: seq<Uuid>)
    requires Inv(net) && Inv(net') && Moves(net, net', base, e) && Settled(net, net') && Extends(net, net')
    requires n in net.stores && n in net'.stores
    requires forall id :: id in ids ==> id in net'.issued && net'.issued[id].kind.Data?
    ensures |NewFor(net.stores[n], net'.stores[n], ids)| + Total(net', Row(n, ids)) <= Total(net, Row(n, ids))
  {
    var s, t := net.stores[n], net'.stores[n];
    if ids == [] {
      assert NewFor(s, t, ids) == {};
    } else {
      var one, rest := NewFor(s, t, [ids[0]]), NewFor(s, t, ids[1..]);
      IdsPay(net, net', base, e, n, ids[1..]);
      OneIdPays(net, net', base, e, n, ids[0]);
      assert NewFor(s, t, ids) <= one + rest;
      Smaller(NewFor(s, t, ids), one + rest);
      assert |one + rest| <= |one| + |rest|;
      assert Row(n, ids)[1..] == Row(n, ids[1..]);
    }
  }

  /** Every bundle a node gains is for Data of the network. */
  lemma {:induction false} NewIdsAreNamed(net: Net, n: Uuid, s: seq<Bundle>, ids: seq<Uuid>)
    requires Inv(net) && n in net.stores
    requires forall id :: id in ids <==> id in net.issued && net.issued[id].kind.Data?
    ensures NewIds(s, net.stores[n]) == NewFor(s, net.stores[n], ids)
  {
    forall b | b in net.stores[n] ensures DataOf(b) in ids {
      assert Version(b, net.issued);
      VersionFields(b, net.issued);
      if b.kind.Ack? {
        IssuedAck(net, b.id);
      } else {
        assert IssuedWell(net.issued[b.id], net.now);
      }
    }
  }

  /** One event: the bundles gained and the phases left afterwards are at most the phases left before. */
  lemma {:induction false} MoveLowersTotal(net: Net, net': Net, base: Net, e: NodeEvent, nodes: seq<Uuid>,
                                           ids: seq<Uuid>)
    requires Inv(net) && Inv(net') && Moves(net, net', base, e) && Settled(net, net') && Extends(net, net')
    requires forall n :: n in nodes ==> n in net.stores
    requires forall id :: id in ids <==> id in net'.issued && net'.issued[id].kind.Data?
    ensures Gained(net, net', nodes) + Total(net', Grid(nodes, ids)) <= Total(net, Grid(nodes, ids))
  {
    if nodes != [] {
      var n := nodes[0];
      assert n in nodes && forall m :: m in nodes[1..] ==> m in nodes;
      MoveLowersTotal(net, net', base, e, nodes[1..], ids);
      IdsPay(net, net', base, e, n, ids);
      NewIdsAreNamed(net', n, net.stores[n], ids);
      TotalSplits(net, Row(n, ids), Grid(nodes[1..], ids));
      TotalSplits(net', Row(n, ids), Grid(nodes[1..], ids));
    }
  }

  lemma {:induction false} WaitKeepsTotal(net: Net, net': Net, pairs: seq<(Uuid, Uuid)>)
    requires Waits(net, net')
    ensures Total(net', pairs) == Total(net, pairs)
  {
    if pairs != [] {
      WaitKeepsTotal(net, net', pairs[1..]);
    }
  }

  lemma {:induction false} WaitGainsNothing(net: Net, net': Net, nodes: seq<Uuid>)
    requires Waits(net, net')
    ensures Gained(net, net', nodes) == 0
  {
    if nodes != [] {
      WaitGainsNothing(net, net', nodes[1..]);
      var s := StoreOf(net, nodes[0]);
      assert NewIds(s, s) == {};
    }
  }

  lemma {:induction false} StepLowersTotal(states: seq<Net>, steps: seq<Action>, k: nat, nodes: seq<Uuid>,
                                           ids: seq<Uuid>)
    requires IsRun(states, steps) && k + 1 < |states| && Settled(states[k], states[k + 1])
    requires forall n :: n in states[k].stores <==> n in nodes
    requires forall id :: id in ids <==> id in states[k + 1].issued && states[k + 1].issued[id].kind.Data?
    ensures var g := Grid(nodes, ids);
            Gained(states[k], states[k + 1], nodes) + Total(states[k + 1], g) <= Total(states[k], g)
  {
    var base, e := RunMoves(states, steps, k);
    if Waits(states[k], states[k + 1]) {
      WaitKeepsTotal(states[k], states[k + 1], Grid(nodes, ids));
      WaitGainsNothing(states[k], states[k + 1], nodes);
    } else {
      MoveExtends(states[k], states[k + 1], base, e);
      MoveLowersTotal(states[k], states[k + 1], base, e, nodes, ids);
    }
  }

  /** Over any stretch of a run in which no Data is created and all Data stays live, the bundles inserted are paid for
      by the total of phases left. */
  lemma {:induction false} InsertionsArePaid(states: seq<Net>, steps: seq<Action>, i: nat, k: nat, nodes: seq<Uuid>,
                                             ids: seq<Uuid>)
    requires IsRun(states, steps) && i <= k < |states|
    requires Settled(states[i], states[k])
    requires forall n :: n in states[i].stores <==> n in nodes
    requires forall id :: id in ids <==> id in states[k].issued && states[k].issued[id].kind.Data?
    ensures Insertions(states, i, k, nodes) + Total(states[k], Grid(nodes, ids)) <= Total(states[i], Grid(nodes, ids))
    decreases k
  {
    if i < k {
      RunExtends(states, steps, i, k - 1);
      RunStep(states, steps, k - 1);
      SettledBefore(states[i], states[k - 1], states[k]);
      InsertionsArePaid(states, steps, i, k - 1, nodes, ids);
      StepLowersTotal(states, steps, k - 1, nodes, ids);
    }
  }

  /** So there are at most two per node and Data id. */
  lemma {:induction false} FloodingDiesOut(states: seq<Net>, steps: seq<Action>, i: nat, k: nat, nodes: seq<Uuid>,
                                           ids: seq<Uuid>)
    requires IsRun(states, steps) && i <= k < |states|
    requires Settled(states[i], states[k])
    requires forall n :: n in states[i].stores <==> n in nodes
    requires forall id :: id in ids <==> id in states[k].issued && states[k].issued[id].kind.Data?
    ensures Insertions(states, i, k, nodes) <= 2 * (|nodes| * |ids|)
  {
    InsertionsArePaid(states, steps, i, k, nodes, ids);
    TotalBound(states[i], Grid(nodes, ids));
    GridSize(nodes, ids);
  }

  lemma {:induction false} SettledBefore(first: Net, net: Net, net': Net)
    requires Settled(first, net') && Extends(first, net) && Extends(net, net')
    ensures Settled(first, net) && Settled(net, net')
    ensures forall id :: (id in net.issued && net.issued[id].kind.Data?)
              <==> (id in net'.issued && net'.issued[id].kind.Data?)
  {
    forall id | id in net.issued && net.issued[id].kind.Data? ensures Live(net.issued[id], net.now) {
      ExpiryIsPermanent(WireCopy(net.issued[id]), net.now, net'.now);
    }
  }

  /** Once a node stored an ACK, it ignores every further copy while the Data is live. */
  lemma {:induction false} KnownAckIsIgnored(states: seq<Net>, steps: seq<Action>, j: nat, i: nat, n: Uuid,
                                             ack: Bundle, w: World, peers: seq<Uuid>)
    requires IsRun(states, steps) && j <= i < |states| && n in states[j].stores && n in states[i].stores
    requires ack.kind.Ack? && OnWire(states[i], ack) && Has(states[j].stores[n], ack.id)
    requires ack.kind.ackBundleId in states[i].issued
    requires Live(states[i].issued[ack.kind.ackBundleId], states[i].now)
    requires FreshWorld(states[i], w)
    ensures Next(states[i], Arrive(n, ack, peers, w)) == states[i]
  {
    StillHeld(states, steps, j, i, n, ack);
    IdleIsProper(states[i], n);
  }

  lemma {:induction false} StillHeld(states: seq<Net>, steps: seq<Action>, j: nat, i: nat, n: Uuid, ack: Bundle)
    requires IsRun(states, steps) && j <= i < |states| && n in states[j].stores && n in states[i].stores
    requires ack.kind.Ack? && OnWire(states[i], ack) && Has(states[j].stores[n], ack.id)
    requires ack.kind.ackBundleId in states[i].issued
    requires Live(states[i].issued[ack.kind.ackBundleId], states[i].now)
    ensures Inv(states[i]) && Has(states[i].stores[n], ack.id)
  {
    var id := ack.kind.ackBundleId;
    InvAlways(states, steps, j);
    InvAlways(states, steps, i);
    RunExtends(states, steps, j, i);
    HeldIsIssued(states[j], n, ack.id);
    assert IsAckFor(states[j].issued[ack.id], id);
    IssuedAck(states[j], ack.id);
    HeldIdIsAck(states[j], n, ack.id, id);
    NoResurrection(states, steps, j, i, n, id);
    var a := HeldAck(states[i], n, id);
    NoRivals(states[i], a, ack.id);
  }

  /** In this step node `n` receives an ACK for `id` and takes it for first seen, the branch that forwards it. */
  predicate TakesFirstSeen(net: Net, a: Action, n: Uuid, id: Uuid)
    requires Enabled(net, a)
  {
    && a.Arrive? && a.node == n && IsAckFor(a.bundle, id) && !Has(net.stores[n], a.bundle.id)
    && AbsorbAck(net.stores[n], a.bundle, net.now, net.capacity).1
  }

  /** After that branch the ACK is stored. */
  lemma {:induction false} FirstSeenIsStored(self: Uuid, peers: seq<Uuid>, s: seq<Bundle>, b: Bundle, w: World,
                                             capacity: nat)
    requires b.kind.Ack? && WellFormed(s, capacity) && AbsorbAck(s, b, w.now, capacity).1
    ensures HasAck(RouteAck(self, peers, s, b, w, capacity).store, b.kind.ackBundleId)
  {
    var o := RouteAck(self, peers, s, b, w, capacity);
    if self == b.destination.id {
      var t := AbsorbAck(s, b, w.now, capacity).0;
      AbsorbMembers(s, b, w.now, capacity);
      UpsertMembers(t, b.(status := Delivered), w.now, capacity);
      assert b.(status := Delivered) in o.store;
    } else {
      AckRelayStore(self, peers, s, b, w, capacity);
      assert o.bundle in o.store;
    }
  }

  lemma {:induction false} StepStoresAck(net: Net, a: Action, n: Uuid, id: Uuid)
    requires Inv(net) && Enabled(net, a) && TakesFirstSeen(net, a, n, id)
    ensures id in net.issued && net.issued[id].kind.Data?
    ensures n in Next(net, a).stores && HasAck(Next(net, a).stores[n], id)
  {
    ArrivalIsAcceptable(net, n, a.bundle, a.w);
    IssuedAck(net, a.bundle.id);
    FirstSeenIsStored(n, a.peers, net.stores[n], a.bundle, a.w, net.capacity);
  }

  /** A node that holds an ACK for Data takes no ACK for it for first seen. */
  lemma {:induction false} HeldAckIsNoNews(net: Net, n: Uuid, id: Uuid, ack: Bundle)
    requires Inv(net) && n in net.stores && HasAck(net.stores[n], id) && IsAckFor(ack, id)
    requires id in net.issued && net.issued[id].kind.Data?
    ensures !AbsorbAck(net.stores[n], ack, net.now, net.capacity).1
  {
    var x :| x in net.stores[n] && IsAckFor(x, id);
    assert Version(x, net.issued);
    VersionFields(x, net.issued);
    assert x in Without(net.stores[n], id);
  }

  lemma {:induction false} RunStoresAck(states: seq<Net>, steps: seq<Action>, j: nat, n: Uuid, id: Uuid)
    requires IsRun(states, steps) && j < |steps| && Enabled(states[j], steps[j])
    requires TakesFirstSeen(states[j], steps[j], n, id)
    ensures id in states[j].issued && id in states[j + 1].issued && states[j + 1].issued[id] == states[j].issued[id]
    ensures states[j].issued[id].kind.Data?
    ensures n in states[j + 1].stores && HasAck(states[j + 1].stores[n], id)
  {
    RunStep(states, steps, j);
    StepStoresAck(states[j], steps[j], n, id);
    assert Follows(states, steps, j);
  }

  lemma {:induction false} AckStaysNoNews(states: seq<Net>, steps: seq<Action>, j: nat, i: nat, n: Uuid, id: Uuid,
                                          ack: Bundle)
    requires IsRun(states, steps) && j <= i < |states| && n in states[j].stores && HasAck(states[j].stores[n], id)
    requires id in states[j].issued && states[j].issued[id].kind.Data? && Live(states[j].issued[id], states[i].now)
    requires IsAckFor(ack, id)
    ensures n in states[i].stores && !AbsorbAck(states[i].stores[n], ack, states[i].now, states[i].capacity).1
  {
    InvAlways(states, steps, i);
    RunExtends(states, steps, j, i);
    NoResurrection(states, steps, j, i, n, id);
    HeldAckIsNoNews(states[i], n, id, ack);
  }

  /** Over a whole run, a node takes the branch that forwards a first-seen ACK at most once for each Data bundle, as
      long as the Data is live, whichever copies of whichever ACKs reach it. */
  lemma {:induction false} FirstSeenOnce(states: seq<Net>, steps: seq<Action>, j: nat, i: nat, n: Uuid, id: Uuid)
    requires IsRun(states, steps) && j < i < |steps|
    requires Enabled(states[j], steps[j]) && Enabled(states[i], steps[i])
    requires TakesFirstSeen(states[j], steps[j], n, id)
    requires id in states[j].issued ==> Live(states[j].issued[id], states[i].now)
    ensures !TakesFirstSeen(states[i], steps[i], n, id)
  {
    RunStoresAck(states, steps, j, n, id);
    if TakesFirstSeen(states[i], steps[i], n, id) {
      AckStaysNoNews(states, steps, j + 1, i, n, id, steps[i].bundle);
    }
  }
}
