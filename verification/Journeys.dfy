/** Delivery in the midst of other traffic: the hops of a journey are steps of a run, in order, with any steps of any
    nodes between them. */
module Journeys {
  import opened Model
  import opened Store
  import opened NodeStep
  import opened NodeFacts
  import opened Network
  import opened Runs
  import opened Delivery
  import Sending
  import Table

  /** In step `k` node `i` retries, reaches `j`, and gets its real summary vector. */
  predicate OffersTo(states: seq<Net>, steps: seq<Action>, k: nat, i: Uuid, j: Uuid)
    requires k < |steps| && |states| == |steps| + 1
  {
    var a := steps[k];
    && a.Resend? && a.node == i && j in states[k].stores
    && Sending.Up(a.w, i, j) && (a.peers == [] || j in a.peers)
    && j in a.w.vectors && a.w.vectors[j] == Table.Ids(states[k].stores[j])
  }

  /** If the wire copy of bundle `id` was sent to `j`, step `k` is its arrival there. */
  predicate TakesIn(states: seq<Net>, steps: seq<Action>, k: nat, j: Uuid, id: Uuid)
    requires k < |steps| && |states| == |steps| + 1
  {
    SentTo(states[k], j, id) ==>
      steps[k].Arrive? && steps[k].node == j && steps[k].bundle == WireCopy(states[k].issued[id])
  }

  /** One leg of a journey: an offer, and later the arrival. */
  datatype Leg = Leg(offer: nat, arrival: nat)

  /** On this leg bundle `id`, the Data `d` or its ACK, gets from `i` to `j`, which is ready when it arrives. */
  predicate Travels(states: seq<Net>, steps: seq<Action>, leg: Leg, i: Uuid, j: Uuid, id: Uuid, d: Uuid)
    requires |states| == |steps| + 1
  {
    && leg.offer < leg.arrival < |steps|
    && i in states[leg.offer].stores && OffersTo(states, steps, leg.offer, i, j)
    && TakesIn(states, steps, leg.arrival, j, id)
    && d in states[leg.arrival].issued && Ready(states[leg.arrival], j, d)
  }

  /** The legs of a journey along a path, one after the other; anything may happen before, between and after. */
  predicate Journey(states: seq<Net>, steps: seq<Action>, path: seq<Uuid>, legs: seq<Leg>, id: Uuid, d: Uuid)
    requires |states| == |steps| + 1
  {
    && legs != [] && |path| == |legs| + 1
    && (forall k :: 0 <= k < |legs| ==> legs[k].offer < legs[k].arrival < |steps|)
    && (forall k :: 0 <= k < |legs| ==> Travels(states, steps, legs[k], path[k], path[k + 1], id, d))
    && (forall k :: 0 < k < |legs| ==> legs[k - 1].arrival < legs[k].offer)
  }

  // ---- What a run keeps ----------------------------------------------------------------------

  lemma {:induction false} SentStays(states: seq<Net>, steps: seq<Action>, j: nat, i: nat, m: Message)
    requires IsRun(states, steps) && j <= i < |states| && m in states[j].sent
    ensures m in states[i].sent
    decreases i
  {
    if j < i {
      SentStays(states, steps, j, i - 1, m);
      var base, e := RunMoves(states, steps, i - 1);
    }
  }

  /** Data `d` is live at state `i`, whenever it was issued. */
  predicate LiveAt(states: seq<Net>, i: nat, d: Uuid)
    requires i < |states|
  {
    LiveData(states[i], d)
  }

  lemma {:induction false} LiveUntil(states: seq<Net>, steps: seq<Action>, j: nat, i: nat, d: Uuid)
    requires IsRun(states, steps) && j <= i < |states| && d in states[j].issued && LiveAt(states, i, d)
    ensures Inv(states[j]) && LiveAt(states, j, d) && states[i].issued[d] == states[j].issued[d]
    ensures Extends(states[j], states[i])
  {
    InvAlways(states, steps, j);
    RunExtends(states, steps, j, i);
    ExpiryIsPermanent(WireCopy(states[j].issued[d]), states[j].now, states[i].now);
  }

  /** How far `n` is with `d` at state `i`. */
  function PhaseAt(states: seq<Net>, i: nat, n: Uuid, d: Uuid): nat
    requires i < |states|
  {
    if n in states[i].stores then Phase(states[i].stores[n], d) else 0
  }

  lemma {:induction false} PhaseStays(states: seq<Net>, steps: seq<Action>, j: nat, i: nat, n: Uuid, d: Uuid)
    requires IsRun(states, steps) && j <= i < |states| && d in states[j].issued && LiveAt(states, i, d)
    ensures PhaseAt(states, i, n, d) >= PhaseAt(states, j, n, d)
  {
    if n in states[j].stores {
      LiveUntil(states, steps, j, i, d);
      NoResurrection(states, steps, j, i, n, d);
    }
  }

  // ---- An offer ------------------------------------------------------------------------------

  /** A retry puts on the wire what the peer it reaches lacks. */
  lemma {:induction false} RetrySends(net: Net, a: Action, j: Uuid, x: Bundle)
    requires Inv(net) && a.Resend? && Enabled(net, a) && j in net.stores
    requires Sending.Up(a.w, a.node, j) && (a.peers == [] || j in a.peers)
    requires j in a.w.vectors && a.w.vectors[j] == Table.Ids(net.stores[j])
    requires x in net.stores[a.node] && a.node != x.destination.id && !Has(net.stores[j], x.id)
    ensures x.id in net.issued && SentTo(Next(net, a), j, x.id)
  {
    assert Message(j, x) in NodeStep.Retry(a.node, a.peers, net.stores[a.node], a.w).1 by {
      StoreIsWell(net, a.node);
      assert StatusFits(a.node, x);
      Table.IdsMembers(net.stores[j], x.id);
      Sending.RetrySendsExactly(a.node, a.peers, net.stores[a.node], a.w, Message(j, x));
    }
    OfferedIsCopied(net, x);
    GoesOut(net, EventOf(net, a), Message(j, x));
  }

  lemma {:induction false} GoesOut(net: Net, e: NodeEvent, m: Message)
    requires m in e.sent
    ensures Carried(m) in After(net, e).sent
  {
    assert Carried(m) in Copies(e.sent);
  }

  lemma {:induction false} OfferSends(states: seq<Net>, steps: seq<Action>, k: nat, i: Uuid, j: Uuid, x: Bundle)
    requires IsRun(states, steps) && k < |steps| && i in states[k].stores && OffersTo(states, steps, k, i, j)
    requires x in states[k].stores[i] && i != x.destination.id && !Has(states[k].stores[j], x.id)
    ensures x.id in states[k].issued && SentTo(states[k + 1], j, x.id)
  {
    InvAlways(states, steps, k);
    assert Follows(states, steps, k);
    RetrySends(states[k], steps[k], j, x);
  }

  /** From then on it stays sent. */
  lemma {:induction false} StaysSent(states: seq<Net>, steps: seq<Action>, k: nat, m: nat, i: Uuid, j: Uuid, x: Bundle)
    requires IsRun(states, steps) && k < m < |states| && i in states[k].stores && OffersTo(states, steps, k, i, j)
    requires x in states[k].stores[i] && i != x.destination.id && !Has(states[k].stores[j], x.id)
    ensures x.id in states[k].issued && SentTo(states[m], j, x.id)
  {
    OfferSends(states, steps, k, i, j, x);
    RunExtends(states, steps, k, k + 1);
    RunExtends(states, steps, k + 1, m);
    SentStays(states, steps, k + 1, m, Message(j, WireCopy(states[k].issued[x.id])));
  }

  // ---- An arrival ----------------------------------------------------------------------------

  /** A ready node that receives the Data, from whatever world, ends with it or its ACK; the destination with both. */
  lemma {:induction false} DataArrives(net: Net, a: Action, d: Uuid)
    requires Inv(net) && LiveData(net, d) && a.Arrive? && Enabled(net, a) && a.bundle == WireCopy(net.issued[d])
    requires Ready(net, a.node, d)
    ensures var t := Next(net, a).stores[a.node];
            Phase(t, d) >= 1 && (a.node == net.issued[d].destination.id ==> Phase(t, d) == 2)
  {
    var s, b := net.stores[a.node], a.bundle;
    if !Has(s, d) {
      ArrivalIsAcceptable(net, a.node, b, a.w);
      RouteIsLawful(a.node, a.peers, s, b, a.w, net.capacity);
      DataAdmission(a.node, a.peers, s, b, a.w, net.capacity);
      StepGrows(net, a, d);
      var o := Route(a.node, a.peers, s, b, a.w, net.capacity);
      if o.minted.Some? {
        var y :| y in o.store && Core(y) == Core(o.minted.value);
        SameCore(y, o.minted.value);
        assert IsAckFor(y, d);
      }
    }
  }

  /** A ready node that receives the ACK ends with it. */
  lemma {:induction false} AckArrives(net: Net, a: Action, ackId: Uuid, d: Uuid)
    requires Inv(net) && LiveData(net, d) && AckOf(net, ackId, d) && a.Arrive? && Enabled(net, a)
    requires a.bundle == WireCopy(net.issued[ackId]) && Ready(net, a.node, d)
    ensures Phase(Next(net, a).stores[a.node], d) == 2
  {
    var s, b := net.stores[a.node], a.bundle;
    HoldsThisAck(net, a.node, ackId, d);
    if !Has(s, ackId) {
      IssuedAck(net, ackId);
      ArrivalIsAcceptable(net, a.node, b, a.w);
      AckAdmission(a.node, a.peers, s, b, a.w, net.capacity);
    }
  }

  // ---- One leg -------------------------------------------------------------------------------

  /** The Data comes along on a leg, unless it was delivered before. */
  lemma {:induction false} LegThere(states: seq<Net>, steps: seq<Action>, leg: Leg, i: Uuid, j: Uuid, d: Uuid)
    requires IsRun(states, steps) && Travels(states, steps, leg, i, j, d, d)
    requires d in states[leg.offer].issued && LiveAt(states, leg.arrival + 1, d)
    requires i != states[leg.offer].issued[d].destination.id && PhaseAt(states, leg.offer, i, d) >= 1
    ensures var last := states[leg.offer].issued[d].destination.id;
            && (PhaseAt(states, leg.arrival + 1, j, d) >= 1 || PhaseAt(states, leg.arrival + 1, last, d) == 2)
            && (j == last ==> PhaseAt(states, leg.arrival + 1, last, d) == 2)
  {
    var first, end := states[leg.offer], leg.arrival + 1;
    var last := first.issued[d].destination.id;
    LiveUntil(states, steps, leg.offer, end, d);
    if HasAck(first.stores[i], d) {
      AckMeansDelivered(first, i, d);
      PhaseStays(states, steps, leg.offer, end, last, d);
    } else {
      DataLeg(states, steps, leg, i, j, d);
    }
  }

  lemma {:induction false} DataLeg(states: seq<Net>, steps: seq<Action>, leg: Leg, i: Uuid, j: Uuid, d: Uuid)
    requires IsRun(states, steps) && Travels(states, steps, leg, i, j, d, d)
    requires d in states[leg.offer].issued && LiveAt(states, leg.arrival + 1, d)
    requires i != states[leg.offer].issued[d].destination.id && Has(states[leg.offer].stores[i], d)
    ensures PhaseAt(states, leg.arrival + 1, j, d) >= 1
    ensures j == states[leg.offer].issued[d].destination.id ==> PhaseAt(states, leg.arrival + 1, j, d) == 2
  {
    LiveUntil(states, steps, leg.offer, leg.arrival + 1, d);
    RunExtends(states, steps, leg.offer, leg.arrival);
    LiveUntil(states, steps, leg.arrival, leg.arrival + 1, d);
    if Has(states[leg.offer].stores[j], d) {
      PhaseStays(states, steps, leg.offer, leg.arrival, j, d);
      PhaseStays(states, steps, leg.arrival, leg.arrival + 1, j, d);
    } else {
      var x :| x in states[leg.offer].stores[i] && x.id == d;
      VersionFields(x, states[leg.offer].issued);
      StaysSent(states, steps, leg.offer, leg.arrival, i, j, x);
      assert Follows(states, steps, leg.arrival);
      DataArrives(states[leg.arrival], steps[leg.arrival], d);
    }
  }

  /** The ACK comes along on a leg. */
  lemma {:induction false} LegBack(states: seq<Net>, steps: seq<Action>, leg: Leg, i: Uuid, j: Uuid, a: Uuid, d: Uuid)
    requires IsRun(states, steps) && Travels(states, steps, leg, i, j, a, d)
    requires d in states[leg.offer].issued && LiveAt(states, leg.arrival + 1, d) && AckOf(states[leg.offer], a, d)
    requires i != states[leg.offer].issued[d].source.id && PhaseAt(states, leg.offer, i, d) == 2
    ensures PhaseAt(states, leg.arrival + 1, j, d) == 2
  {
    LiveUntil(states, steps, leg.offer, leg.arrival + 1, d);
    RunExtends(states, steps, leg.offer, leg.arrival);
    LiveUntil(states, steps, leg.arrival, leg.arrival + 1, d);
    HoldsThisAck(states[leg.offer], j, a, d);
    if HasAck(states[leg.offer].stores[j], d) {
      PhaseStays(states, steps, leg.offer, leg.arrival + 1, j, d);
    } else {
      AckIsSent(states, steps, leg, i, j, a, d);
      assert Follows(states, steps, leg.arrival);
      AckArrives(states[leg.arrival], steps[leg.arrival], a, d);
    }
  }

  lemma {:induction false} AckIsSent(states: seq<Net>, steps: seq<Action>, leg: Leg, i: Uuid, j: Uuid, a: Uuid, d: Uuid)
    requires IsRun(states, steps) && Travels(states, steps, leg, i, j, a, d) && Inv(states[leg.offer])
    requires LiveData(states[leg.offer], d) && AckOf(states[leg.offer], a, d)
    requires i != states[leg.offer].issued[d].source.id && HasAck(states[leg.offer].stores[i], d)
    requires !Has(states[leg.offer].stores[j], a)
    ensures SentTo(states[leg.arrival], j, a)
  {
    var net := states[leg.offer];
    HoldsThisAck(net, i, a, d);
    var x :| x in net.stores[i] && x.id == a;
    VersionFields(x, net.issued);
    IssuedAck(net, a);
    StaysSent(states, steps, leg.offer, leg.arrival, i, j, x);
  }

  // ---- Whole journeys ------------------------------------------------------------------------

  /** The state after leg number `k`; before the first, the state of the first offer. */
  function StateAfter(legs: seq<Leg>, k: nat): nat
    requires k <= |legs| && legs != []
  {
    if k == 0 then legs[0].offer else legs[k - 1].arrival + 1
  }

  lemma {:induction false} LegsInOrder(states: seq<Net>, steps: seq<Action>, path: seq<Uuid>, legs: seq<Leg>, id: Uuid,
                                       d: Uuid, k: nat)
    requires |states| == |steps| + 1 && Journey(states, steps, path, legs, id, d) && k < |legs|
    ensures StateAfter(legs, k) <= legs[k].offer < StateAfter(legs, k + 1) <= |steps|
    ensures legs[0].offer <= StateAfter(legs, k)
  {
    if k > 0 {
      LegsInOrder(states, steps, path, legs, id, d, k - 1);
    }
    assert Travels(states, steps, legs[k], path[k], path[k + 1], id, d);
  }

  lemma {:induction false} NextLegThere(states: seq<Net>, steps: seq<Action>, leg: Leg, before: nat, i: Uuid, j: Uuid,
                                        d: Uuid)
    requires IsRun(states, steps) && before <= leg.offer && Travels(states, steps, leg, i, j, d, d)
    requires d in states[before].issued && LiveAt(states, leg.arrival + 1, d)
    requires i != states[before].issued[d].destination.id
    requires PhaseAt(states, before, i, d) >= 1
             || PhaseAt(states, before, states[before].issued[d].destination.id, d) == 2
    ensures var last := states[before].issued[d].destination.id;
            && (PhaseAt(states, leg.arrival + 1, j, d) >= 1 || PhaseAt(states, leg.arrival + 1, last, d) == 2)
            && (j == last ==> PhaseAt(states, leg.arrival + 1, last, d) == 2)
  {
    var last := states[before].issued[d].destination.id;
    RunExtends(states, steps, before, leg.offer);
    LiveUntil(states, steps, leg.offer, leg.arrival + 1, d);
    if PhaseAt(states, before, last, d) == 2 {
      PhaseStays(states, steps, before, leg.arrival + 1, last, d);
    } else {
      PhaseStays(states, steps, before, leg.offer, i, d);
      LegThere(states, steps, leg, i, j, d);
    }
  }

  lemma {:induction false} JourneyThereUpTo(states: seq<Net>, steps: seq<Action>, path: seq<Uuid>, legs: seq<Leg>,
                                            d: Uuid, k: nat)
    requires IsRun(states, steps) && Journey(states, steps, path, legs, d, d) && k <= |legs|
    requires d in states[legs[0].offer].issued && StateAfter(legs, k) <= |steps| && LiveAt(states, StateAfter(legs, k), d)
    requires var last := states[legs[0].offer].issued[d].destination.id;
             path[|path| - 1] == last && forall m :: 0 <= m < |path| - 1 ==> path[m] != last
    requires PhaseAt(states, legs[0].offer, path[0], d) >= 1
    ensures var last := states[legs[0].offer].issued[d].destination.id;
            && (PhaseAt(states, StateAfter(legs, k), path[k], d) >= 1 || PhaseAt(states, StateAfter(legs, k), last, d) == 2)
            && (k == |legs| ==> PhaseAt(states, StateAfter(legs, k), last, d) == 2)
  {
    if k > 0 {
      LegsInOrder(states, steps, path, legs, d, d, k - 1);
      RunExtends(states, steps, legs[0].offer, StateAfter(legs, k - 1));
      LiveUntil(states, steps, StateAfter(legs, k - 1), StateAfter(legs, k), d);
      JourneyThereUpTo(states, steps, path, legs, d, k - 1);
      NextLegThere(states, steps, legs[k - 1], StateAfter(legs, k - 1), path[k - 1], path[k], d);
    }
  }

  /** The way there: in any run that contains the legs of a path in order, whatever else happens between them, the Data
      and its ACK are at the destination after the last leg. */
  lemma {:induction false} JourneyThere(states: seq<Net>, steps: seq<Action>, path: seq<Uuid>, legs: seq<Leg>, d: Uuid)
    returns (a: Uuid)
    requires IsRun(states, steps) && Journey(states, steps, path, legs, d, d)
    requires d in states[legs[0].offer].issued && LiveAt(states, legs[|legs| - 1].arrival + 1, d)
    requires var last := states[legs[0].offer].issued[d].destination.id;
             path[|path| - 1] == last && forall m :: 0 <= m < |path| - 1 ==> path[m] != last
    requires PhaseAt(states, legs[0].offer, path[0], d) >= 1
    ensures var end := states[legs[|legs| - 1].arrival + 1];
            var last := states[legs[0].offer].issued[d].destination.id;
            last in end.stores && Phase(end.stores[last], d) == 2 && AckOf(end, a, d)
  {
    var k := |legs|;
    LegsInOrder(states, steps, path, legs, d, d, k - 1);
    JourneyThereUpTo(states, steps, path, legs, d, k);
    InvAlways(states, steps, StateAfter(legs, k));
    a := HeldAck(states[StateAfter(legs, k)], states[legs[0].offer].issued[d].destination.id, d);
  }

  lemma {:induction false} JourneyBackUpTo(states: seq<Net>, steps: seq<Action>, path: seq<Uuid>, legs: seq<Leg>,
                                           a: Uuid, d: Uuid, k: nat)
    requires IsRun(states, steps) && Journey(states, steps, path, legs, a, d) && k <= |legs|
    requires d in states[legs[0].offer].issued && AckOf(states[legs[0].offer], a, d)
    requires StateAfter(legs, k) <= |steps| && LiveAt(states, StateAfter(legs, k), d)
    requires forall m :: 0 <= m < |path| - 1 ==> path[m] != states[legs[0].offer].issued[d].source.id
    requires PhaseAt(states, legs[0].offer, path[0], d) == 2
    ensures AckedUpTo(states, StateAfter(legs, k), path, k, d)
  {
    if k > 0 {
      LegsInOrder(states, steps, path, legs, a, d, k - 1);
      RunExtends(states, steps, legs[0].offer, StateAfter(legs, k - 1));
      LiveUntil(states, steps, StateAfter(legs, k - 1), StateAfter(legs, k), d);
      JourneyBackUpTo(states, steps, path, legs, a, d, k - 1);
      NextLegBack(states, steps, path, legs[k - 1], StateAfter(legs, k - 1), a, d, k);
    }
  }

  /** The first nodes of a path hold the ACK. */
  predicate AckedUpTo(states: seq<Net>, i: nat, path: seq<Uuid>, k: nat, d: Uuid)
    requires i < |states| && k < |path|
  {
    forall m :: 0 <= m <= k ==> PhaseAt(states, i, path[m], d) == 2
  }

  lemma {:induction false} NextLegBack(states: seq<Net>, steps: seq<Action>, path: seq<Uuid>, leg: Leg, before: nat,
                                       a: Uuid, d: Uuid, k: nat)
    requires IsRun(states, steps) && 0 < k < |path| && before <= leg.offer
    requires Travels(states, steps, leg, path[k - 1], path[k], a, d)
    requires d in states[before].issued && AckOf(states[before], a, d) && LiveAt(states, leg.arrival + 1, d)
    requires path[k - 1] != states[before].issued[d].source.id && AckedUpTo(states, before, path, k - 1, d)
    ensures AckedUpTo(states, leg.arrival + 1, path, k, d)
  {
    RunExtends(states, steps, before, leg.offer);
    LiveUntil(states, steps, leg.offer, leg.arrival + 1, d);
    PhaseStays(states, steps, before, leg.offer, path[k - 1], d);
    LegBack(states, steps, leg, path[k - 1], path[k], a, d);
    forall m | 0 <= m < k ensures PhaseAt(states, leg.arrival + 1, path[m], d) == 2 {
      PhaseStays(states, steps, before, leg.arrival + 1, path[m], d);
    }
  }

  /** The way back, along any path from a node with the ACK to the source: in the end the Data is acknowledged, and the
      source and every relay of the path keep just the tombstone. */
  lemma {:induction false} JourneyBack(states: seq<Net>, steps: seq<Action>, path: seq<Uuid>, legs: seq<Leg>, a: Uuid,
                                       d: Uuid)
    requires IsRun(states, steps) && Journey(states, steps, path, legs, a, d)
    requires d in states[legs[0].offer].issued && AckOf(states[legs[0].offer], a, d)
    requires LiveAt(states, legs[|legs| - 1].arrival + 1, d)
    requires var source := states[legs[0].offer].issued[d].source.id;
             path[|path| - 1] == source && forall m :: 0 <= m < |path| - 1 ==> path[m] != source
    requires PhaseAt(states, legs[0].offer, path[0], d) == 2
    ensures var end := states[legs[|legs| - 1].arrival + 1];
            && d in end.issued && Acknowledged(end, d)
            && forall m :: 0 <= m < |path| && path[m] != end.issued[d].destination.id ==>
                 path[m] in end.stores && HasAck(end.stores[path[m]], d) && !Has(end.stores[path[m]], d)
  {
    var k := |legs|;
    LegsInOrder(states, steps, path, legs, a, d, k - 1);
    var end := states[StateAfter(legs, k)];
    JourneyBackUpTo(states, steps, path, legs, a, d, k);
    LiveUntil(states, steps, legs[0].offer, StateAfter(legs, k), d);
    InvAlways(states, steps, StateAfter(legs, k));
    assert PhaseAt(states, StateAfter(legs, k), path[k], d) == 2;
    PhasesMeanAcknowledged(end, d);
    forall m | 0 <= m < |path| && path[m] != end.issued[d].destination.id
      ensures path[m] in end.stores && HasAck(end.stores[path[m]], d) && !Has(end.stores[path[m]], d)
    {
      assert PhaseAt(states, StateAfter(legs, k), path[m], d) == 2;
      AckExcludesData(end, path[m], d);
    }
  }
}
