/** An independent reference for the store: one capacity-bounded, ordered table from ids to bundles.
    It knows nothing of files, copies or first matches. */
module Table {
  import opened Model
  import opened Store

  datatype Table = Table(order: seq<Uuid>, entries: map<Uuid, Bundle>)

  // ---- Operations of the table ---------------------------------------------------------------

  function Select(order: seq<Uuid>, entries: map<Uuid, Bundle>): seq<Uuid> {
    if order == [] then []
    else (if order[0] in entries then [order[0]] else []) + Select(order[1..], entries)
  }

  /** Keeps the entries that satisfy `keep`, in their order. */
  function Restrict(t: Table, keep: Bundle -> bool): Table {
    var left := map id | id in t.entries && keep(t.entries[id]) :: t.entries[id];
    Table(Select(t.order, left), left)
  }

  predicate Acknowledged(t: Table, dataId: Uuid) {
    exists id :: id in t.entries && IsAckFor(t.entries[id], dataId)
  }

  datatype Call =
    | CallSave(b: Bundle)
    | CallUpdate(b: Bundle)
    | CallDelete(id: Uuid)
    | CallCleanup
    | CallGet(id: Uuid)
    | CallAll

  datatype Reply =
    | Flag(ok: bool)
    | Count(n: int)
    | Found(bundle: Option<Bundle>)
    | Listing(bundles: seq<Bundle>)

  function Put(t: Table, b: Bundle, now: int, capacity: nat): (Table, bool) {
    Insert(Restrict(t, Unexpired(now)), b, capacity)
  }

  function Insert(t: Table, b: Bundle, capacity: nat): (Table, bool) {
    if (b.kind.Data? && Acknowledged(t, b.id)) || |t.entries| >= capacity || b.id in t.entries
    then (t, false)
    else (Table(t.order + [b.id], t.entries[b.id := b]), true)
  }

  function Overwrite(t: Table, b: Bundle): (Table, bool) {
    if (b.kind.Data? && Acknowledged(t, b.id)) || b.id !in t.entries then (t, false)
    else (t.(entries := t.entries[b.id := b]), true)
  }

  function Remove(t: Table, id: Uuid): (Table, bool) {
    if id !in t.entries then (t, false)
    else (Restrict(t, OtherThan(id)), true)
  }

  function Expire(t: Table, now: int): (Table, int) {
    var left := Restrict(t, Unexpired(now));
    (left, |t.entries| - |left.entries|)
  }

  /** upsert_bundle on the table. */
  function PutOrOverwrite(t: Table, b: Bundle, now: int, capacity: nat): (Table, bool) {
    if b.id in t.entries then Overwrite(t, b) else Put(t, b, now, capacity)
  }

  /** handle_incoming_ack on the table. */
  function Acknowledge(t: Table, ack: Bundle, now: int, capacity: nat): (Table, bool)
    requires ack.kind.Ack?
  {
    var rest := Remove(t, ack.kind.ackBundleId).0;
    if Acknowledged(rest, ack.kind.ackBundleId) || ack.id in rest.entries then (rest, false)
    else Put(rest, ack, now, capacity)
  }

  function Lookup(t: Table, id: Uuid): Option<Bundle> {
    if id in t.entries then Some(t.entries[id]) else None
  }

  function Apply(t: Table, c: Call, now: int, capacity: nat): (Table, Reply) {
    match c
    case CallSave(b) => (Put(t, b, now, capacity).0, Flag(Put(t, b, now, capacity).1))
    case CallUpdate(b) => (Overwrite(t, b).0, Flag(Overwrite(t, b).1))
    case CallDelete(id) => (Remove(t, id).0, Flag(Remove(t, id).1))
    case CallCleanup => (Expire(t, now).0, Count(Expire(t, now).1))
    case CallGet(id) => (t, Found(Lookup(t, id)))
    case CallAll => (t, Listing(Rows(t.order, t.entries)))
  }

  function Rows(order: seq<Uuid>, entries: map<Uuid, Bundle>): seq<Bundle> {
    if order == [] then []
    else (if order[0] in entries then [entries[order[0]]] else []) + Rows(order[1..], entries)
  }

  // ---- Operations of the list, in the same vocabulary ----------------------------------------

  function ApplyToList(s: seq<Bundle>, c: Call, now: int, capacity: nat): (seq<Bundle>, Reply) {
    match c
    case CallSave(b) => (Save(s, b, now, capacity).0, Flag(Save(s, b, now, capacity).1))
    case CallUpdate(b) => (Update(s, b).0, Flag(Update(s, b).1))
    case CallDelete(id) => (Delete(s, id).0, Flag(Delete(s, id).1))
    case CallCleanup => (Cleanup(s, now), Count(|s| - |Cleanup(s, now)|))
    case CallGet(id) => (s, Found(Find(s, id)))
    case CallAll => (s, Listing(s))
  }

  // ---- The list as a table -------------------------------------------------------------------

  function Ids(s: seq<Bundle>): (r: seq<Uuid>)
    ensures |r| == |s|
    ensures forall i :: 0 <= i < |s| ==> r[i] == s[i].id
  {
    if s == [] then [] else [s[0].id] + Ids(s[1..])
  }

  function Index(s: seq<Bundle>): (m: map<Uuid, Bundle>)
    ensures forall id :: id in m <==> id in Ids(s)
    ensures forall id :: id in m ==> m[id] in s && m[id].id == id
  {
    map id | id in Ids(s) :: (IdsMembers(s, id); Find(s, id).value)
  }

  lemma {:induction false} IdsMembers(s: seq<Bundle>, id: Uuid)
    ensures id in Ids(s) <==> Has(s, id)
  {
    if id in Ids(s) {
      var i :| 0 <= i < |s| && Ids(s)[i] == id;
      assert s[i] in s;
    }
    if Has(s, id) {
      var i :| 0 <= i < |s| && s[i].id == id;
      assert Ids(s)[i] == id;
    }
  }

  function View(s: seq<Bundle>): Table {
    Table(Ids(s), Index(s))
  }

  lemma {:induction false} IndexedAs(s: seq<Bundle>, b: Bundle)
    requires Distinct(s) && b in s
    ensures b.id in Index(s) && Index(s)[b.id] == b
  {
    IdsMembers(s, b.id);
    SameId(s, b, Index(s)[b.id]);
  }

  lemma {:induction false} IndexSize(s: seq<Bundle>)
    requires Distinct(s)
    ensures |Index(s)| == |s|
  {
    assert Index(s).Keys == SetOf(Ids(s));
    DistinctCount(Ids(s));
  }

  function SetOf(ids: seq<Uuid>): (r: set<Uuid>)
    ensures forall id :: id in r <==> id in ids
  {
    set id | id in ids
  }

  lemma {:induction false} DistinctCount(ids: seq<Uuid>)
    requires forall i, j :: 0 <= i < j < |ids| ==> ids[i] != ids[j]
    ensures |SetOf(ids)| == |ids|
  {
    if ids != [] {
      var rest := ids[1..];
      DistinctCount(rest);
      assert ids == [ids[0]] + rest;
      assert ids[0] !in rest;
      assert SetOf(ids) == {ids[0]} + SetOf(rest);
    }
  }

  lemma {:induction false} IndexedOnlyAs(s: seq<Bundle>, m: map<Uuid, Bundle>, id: Uuid)
    requires forall b :: b in s ==> b.id in m && m[b.id] == b
    requires id in m ==> Has(s, id)
    ensures id in Index(s) <==> id in m
    ensures id in m ==> Index(s)[id] == m[id]
  {
    IdsMembers(s, id);
    if id in Index(s) {
      var b := Index(s)[id];
      assert b in s;
    }
  }

  /** Two maps that index the same bundles are equal. */
  lemma {:induction false} IndexIs(s: seq<Bundle>, m: map<Uuid, Bundle>)
    requires forall b :: b in s ==> b.id in m && m[b.id] == b
    requires forall id :: id in m ==> Has(s, id)
    ensures Index(s) == m
  {
    forall id: Uuid
      ensures id in Index(s) <==> id in m
      ensures id in m ==> Index(s)[id] == m[id]
    {
      IndexedOnlyAs(s, m, id);
    }
    assert Index(s) == m;
  }

  lemma {:induction false} RowsOfIds(s: seq<Bundle>, entries: map<Uuid, Bundle>)
    requires forall b :: b in s ==> b.id in entries && entries[b.id] == b
    ensures Rows(Ids(s), entries) == s
  {
    if s != [] {
      assert s[0] in s;
      assert Ids(s)[1..] == Ids(s[1..]);
      forall b | b in s[1..] ensures b.id in entries && entries[b.id] == b {
        assert b in s;
      }
      RowsOfIds(s[1..], entries);
    }
  }

  /** The view loses nothing: the rows of the table are the list. */
  lemma {:induction false} ViewRoundTrip(s: seq<Bundle>)
    requires Distinct(s)
    ensures Rows(View(s).order, View(s).entries) == s
  {
    forall b | b in s ensures b.id in Index(s) && Index(s)[b.id] == b {
      IndexedAs(s, b);
    }
    RowsOfIds(s, Index(s));
  }

  lemma {:induction false} SelectIds(s: seq<Bundle>, keep: Bundle -> bool, left: map<Uuid, Bundle>)
    requires forall b :: b in s ==> (b.id in left <==> keep(b))
    ensures Select(Ids(s), left) == Ids(Filter(s, keep))
  {
    if s != [] {
      assert s[0] in s;
      assert Ids(s)[1..] == Ids(s[1..]);
      forall b | b in s[1..] ensures b.id in left <==> keep(b) {
        assert b in s;
      }
      SelectIds(s[1..], keep, left);
    }
  }

  lemma {:induction false} RestrictIsFilter(s: seq<Bundle>, keep: Bundle -> bool)
    requires Distinct(s)
    ensures Restrict(View(s), keep) == View(Filter(s, keep))
    ensures Distinct(Filter(s, keep))
  {
    FilterKeepsDistinct(s, keep);
    var r := Filter(s, keep);
    var left := Restrict(View(s), keep).entries;
    forall b | b in s ensures b.id in Index(s) && Index(s)[b.id] == b {
      IndexedAs(s, b);
    }
    forall id | id in left ensures Has(r, id) {
      assert Index(s)[id] in r;
    }
    IndexIs(r, left);
    SelectIds(s, keep, left);
  }

  lemma {:induction false} AcknowledgedIsHasAck(s: seq<Bundle>, dataId: Uuid)
    requires Distinct(s)
    ensures Acknowledged(View(s), dataId) <==> HasAck(s, dataId)
  {
    if HasAck(s, dataId) {
      var b :| b in s && IsAckFor(b, dataId);
      IndexedAs(s, b);
    }
  }

  lemma {:induction false} AppendView(s: seq<Bundle>, b: Bundle)
    requires Distinct(s) && !Has(s, b.id)
    ensures Distinct(s + [b])
    ensures View(s + [b]) == Table(Ids(s) + [b.id], Index(s)[b.id := b])
  {
    var r := s + [b];
    forall i | 0 <= i < |s| ensures s[i].id != b.id {
      assert s[i] in s;
    }
    assert Ids(r) == Ids(s) + [b.id];
    assert Index(r) == Index(s)[b.id := b] by {
      forall x | x in r ensures x.id in Index(s)[b.id := b] && Index(s)[b.id := b][x.id] == x {
        AppendedIsIndexed(s, b, x);
      }
      forall id | id in Index(s)[b.id := b] ensures Has(r, id) {
        IndexedIsAppended(s, b, id);
      }
      IndexIs(r, Index(s)[b.id := b]);
    }
  }

  lemma {:induction false} AppendedIsIndexed(s: seq<Bundle>, b: Bundle, x: Bundle)
    requires Distinct(s) && !Has(s, b.id) && x in s + [b]
    ensures x.id in Index(s)[b.id := b] && Index(s)[b.id := b][x.id] == x
  {
    if x in s {
      IndexedAs(s, x);
      assert x.id != b.id;
    }
  }

  lemma {:induction false} IndexedIsAppended(s: seq<Bundle>, b: Bundle, id: Uuid)
    requires id in Index(s)[b.id := b]
    ensures Has(s + [b], id)
  {
    if id == b.id {
      assert b in s + [b];
    } else {
      assert Index(s)[id] in s + [b];
    }
  }

  lemma {:induction false} SaveRefines(s: seq<Bundle>, b: Bundle, now: int, capacity: nat)
    requires Distinct(s)
    ensures View(Save(s, b, now, capacity).0) == Put(View(s), b, now, capacity).0
    ensures Save(s, b, now, capacity).1 == Put(View(s), b, now, capacity).1
    ensures Distinct(Save(s, b, now, capacity).0)
  {
    RestrictIsFilter(s, Unexpired(now));
    InsertRefines(Cleanup(s, now), b, capacity);
  }

  lemma {:induction false} InsertRefines(s: seq<Bundle>, b: Bundle, capacity: nat)
    requires Distinct(s)
    ensures Insert(View(s), b, capacity).1 == Admissible(s, b, capacity)
    ensures Admissible(s, b, capacity) ==>
              Distinct(s + [b]) && View(s + [b]) == Insert(View(s), b, capacity).0
    ensures !Admissible(s, b, capacity) ==> Insert(View(s), b, capacity).0 == View(s)
  {
    assert Acknowledged(View(s), b.id) == HasAck(s, b.id) by {
      AcknowledgedIsHasAck(s, b.id);
    }
    assert |Index(s)| == |s| && (b.id in Index(s) <==> Has(s, b.id)) by {
      IndexSize(s);
      IdsMembers(s, b.id);
    }
    if Admissible(s, b, capacity) {
      AppendView(s, b);
    }
  }

  lemma {:induction false} ReplaceView(s: seq<Bundle>, b: Bundle)
    requires Distinct(s) && Has(s, b.id)
    ensures View(Replace(s, b)) == Table(Ids(s), Index(s)[b.id := b])
    ensures Distinct(Replace(s, b))
  {
    ReplaceMembers(s, b);
    var r := Replace(s, b);
    forall i | 0 <= i < |s| ensures Ids(r)[i] == Ids(s)[i] {
      ReplaceAt(s, b, i);
    }
    assert Ids(r) == Ids(s);
    assert Index(r) == Index(s)[b.id := b] by {
      forall x | x in r ensures x.id in Index(s)[b.id := b] && Index(s)[b.id := b][x.id] == x {
        if x.id != b.id {
          IndexedAs(s, x);
        }
      }
      forall id | id in Index(s)[b.id := b] ensures Has(r, id) {
        assert (if id == b.id then b else Index(s)[id]) in r;
      }
      IndexIs(r, Index(s)[b.id := b]);
    }
  }

  lemma {:induction false} UpdateRefines(s: seq<Bundle>, b: Bundle)
    requires Distinct(s)
    ensures View(Update(s, b).0) == Overwrite(View(s), b).0
    ensures Update(s, b).1 == Overwrite(View(s), b).1
    ensures Distinct(Update(s, b).0)
  {
    AcknowledgedIsHasAck(s, b.id);
    IdsMembers(s, b.id);
    if Has(s, b.id) {
      ReplaceView(s, b);
    }
  }

  lemma {:induction false} DeleteRefines(s: seq<Bundle>, id: Uuid)
    requires Distinct(s)
    ensures View(Delete(s, id).0) == Remove(View(s), id).0
    ensures Delete(s, id).1 == Remove(View(s), id).1
    ensures Distinct(Delete(s, id).0)
  {
    WithoutFacts(s, id);
    IdsMembers(s, id);
    RestrictIsFilter(s, OtherThan(id));
  }

  lemma {:induction false} CleanupRefines(s: seq<Bundle>, now: int)
    requires Distinct(s)
    ensures View(Cleanup(s, now)) == Expire(View(s), now).0
    ensures |s| - |Cleanup(s, now)| == Expire(View(s), now).1
    ensures Distinct(Cleanup(s, now))
  {
    assert Restrict(View(s), Unexpired(now)) == View(Cleanup(s, now)) && Distinct(Cleanup(s, now)) by {
      RestrictIsFilter(s, Unexpired(now));
    }
    assert |Index(s)| == |s| && |Index(Cleanup(s, now))| == |Cleanup(s, now)| by {
      IndexSize(s);
      IndexSize(Cleanup(s, now));
    }
  }

  lemma {:induction false} UpsertRefines(s: seq<Bundle>, b: Bundle, now: int, capacity: nat)
    requires Distinct(s)
    ensures View(Upsert(s, b, now, capacity).0) == PutOrOverwrite(View(s), b, now, capacity).0
    ensures Upsert(s, b, now, capacity).1 == PutOrOverwrite(View(s), b, now, capacity).1
  {
    IdsMembers(s, b.id);
    if Has(s, b.id) {
      UpdateRefines(s, b);
    } else {
      SaveRefines(s, b, now, capacity);
    }
  }

  lemma {:induction false} AbsorbRefines(s: seq<Bundle>, ack: Bundle, now: int, capacity: nat)
    requires Distinct(s) && ack.kind.Ack?
    ensures View(AbsorbAck(s, ack, now, capacity).0) == Acknowledge(View(s), ack, now, capacity).0
    ensures AbsorbAck(s, ack, now, capacity).1 == Acknowledge(View(s), ack, now, capacity).1
  {
    var id := ack.kind.ackBundleId;
    var rest := Without(s, id);
    DeleteRefines(s, id);
    AcknowledgedIsHasAck(rest, id);
    IdsMembers(rest, ack.id);
    if !HasAck(rest, id) && !Has(rest, ack.id) {
      SaveRefines(rest, ack, now, capacity);
    }
  }

  lemma {:induction false} GetRefines(s: seq<Bundle>, id: Uuid)
    ensures Lookup(View(s), id) == Find(s, id)
  {
    IdsMembers(s, id);
  }

  /** Every storage operation on the file is the table's operation, with the same reply. */
  lemma {:induction false} Refines(s: seq<Bundle>, c: Call, now: int, capacity: nat)
    requires Distinct(s)
    ensures View(ApplyToList(s, c, now, capacity).0) == Apply(View(s), c, now, capacity).0
    ensures ApplyToList(s, c, now, capacity).1 == Apply(View(s), c, now, capacity).1
    ensures Distinct(ApplyToList(s, c, now, capacity).0)
  {
    match c
    case CallSave(b) => SaveRefines(s, b, now, capacity);
    case CallUpdate(b) => UpdateRefines(s, b);
    case CallDelete(id) => DeleteRefines(s, id);
    case CallCleanup => CleanupRefines(s, now);
    case CallGet(id) => GetRefines(s, id);
    case CallAll => ViewRoundTrip(s);
  }
}
