/** The bundle list of one node as a value: what each operation of src/storage/storage.rs does to
    the file, and the same store seen as an ordered table from ids to bundles. */
module Store {
  import opened Model

  // ---- Lists ---------------------------------------------------------------------------------

  /** Vec::retain. */
  function Filter(s: seq<Bundle>, keep: Bundle -> bool): (r: seq<Bundle>)
    ensures |r| <= |s|
    ensures forall b :: b in r <==> b in s && keep(b)
  {
    if s == [] then []
    else
      var rest := Filter(s[1..], keep);
      assert forall b :: b in s <==> b == s[0] || b in s[1..];
      if keep(s[0]) then [s[0]] + rest else rest
  }

  predicate Has(s: seq<Bundle>, id: Uuid) {
    exists b :: b in s && b.id == id
  }

  predicate HasAck(s: seq<Bundle>, dataId: Uuid) {
    exists b :: b in s && IsAckFor(b, dataId)
  }

  /** No two bundles of the list share an id. */
  predicate Distinct(s: seq<Bundle>) {
    forall i, j :: 0 <= i < j < |s| ==> s[i].id != s[j].id
  }

  /** The first bundle with the given id. */
  function Find(s: seq<Bundle>, id: Uuid): (r: Option<Bundle>)
    ensures r.None? <==> !Has(s, id)
    ensures r.Some? ==> r.value in s && r.value.id == id
  {
    if s == [] then None
    else if s[0].id == id then assert s[0] in s; Some(s[0])
    else
      assert forall b :: b in s <==> b == s[0] || b in s[1..];
      Find(s[1..], id)
  }

  function Unexpired(now: int): Bundle -> bool {
    b => !IsExpired(b, now)
  }

  function OtherThan(id: Uuid): Bundle -> bool {
    (b: Bundle) => b.id != id
  }

  function NotAmong(ids: seq<Uuid>): Bundle -> bool {
    (b: Bundle) => b.id !in ids
  }

  // ---- Operations ----------------------------------------------------------------------------

  function Cleanup(s: seq<Bundle>, now: int): (r: seq<Bundle>)
    ensures |r| <= |s|
    ensures forall b :: b in r <==> b in s && !IsExpired(b, now)
  {
    Filter(s, Unexpired(now))
  }

  function Without(s: seq<Bundle>, id: Uuid): (r: seq<Bundle>)
    ensures |r| <= |s|
    ensures forall b :: b in r <==> b in s && b.id != id
  {
    Filter(s, OtherThan(id))
  }

  /** Overwrites the first bundle that has `b`'s id. */
  function Replace(s: seq<Bundle>, b: Bundle): (r: seq<Bundle>)
    ensures |r| == |s|
  {
    if s == [] then []
    else if s[0].id == b.id then [b] + s[1..]
    else [s[0]] + Replace(s[1..], b)
  }

  /** An ACK for a Data bundle blocks that bundle. */
  predicate Blocked(s: seq<Bundle>, b: Bundle) {
    b.kind.Data? && HasAck(s, b.id)
  }

  predicate Admissible(s: seq<Bundle>, b: Bundle, capacity: nat) {
    !Blocked(s, b) && |s| < capacity && !Has(s, b.id)
  }

  /** save_bundle: the file afterwards and the result. */
  function Save(s: seq<Bundle>, b: Bundle, now: int, capacity: nat): (seq<Bundle>, bool) {
    var kept := Cleanup(s, now);
    if Admissible(kept, b, capacity) then (kept + [b], true) else (kept, false)
  }

  /** update_bundle. */
  function Update(s: seq<Bundle>, b: Bundle): (seq<Bundle>, bool) {
    if !Blocked(s, b) && Has(s, b.id) then (Replace(s, b), true) else (s, false)
  }

  /** delete_bundle. */
  function Delete(s: seq<Bundle>, id: Uuid): (seq<Bundle>, bool) {
    (Without(s, id), |Without(s, id)| < |s|)
  }

  /** upsert_bundle. */
  function Upsert(s: seq<Bundle>, b: Bundle, now: int, capacity: nat): (seq<Bundle>, bool) {
    if Has(s, b.id) then Update(s, b) else Save(s, b, now, capacity)
  }

  /** handle_incoming_ack, with the detour through status Delivered left out: the Data bundle
      the ACK names leaves the list, then the ACK is saved unless one is already known. */
  function AbsorbAck(s: seq<Bundle>, ack: Bundle, now: int, capacity: nat): (seq<Bundle>, bool)
    requires ack.kind.Ack?
  {
    var dataId := ack.kind.ackBundleId;
    var rest := Without(s, dataId);
    if HasAck(rest, dataId) || Has(rest, ack.id) then (rest, false)
    else Save(rest, ack, now, capacity)
  }

  // ---- Facts about lists ---------------------------------------------------------------------

  lemma {:induction false} Regroup(a: seq<Bundle>, b: seq<Bundle>, c: seq<Bundle>)
    ensures a + b + c == a + (b + c)
  {
  }

  lemma {:induction false} FilterKeepsDistinct(s: seq<Bundle>, keep: Bundle -> bool)
    requires Distinct(s)
    ensures Distinct(Filter(s, keep))
  {
    if s != [] {
      FilterKeepsDistinct(s[1..], keep);
      var rest := Filter(s[1..], keep);
      forall i | 0 <= i < |rest| ensures rest[i].id != s[0].id {
        assert rest[i] in s[1..];
      }
    }
  }

  lemma {:induction false} FilterAll(s: seq<Bundle>, keep: Bundle -> bool)
    ensures Filter(s, keep) == s <==> forall b :: b in s ==> keep(b)
    ensures |Filter(s, keep)| == |s| <==> Filter(s, keep) == s
  {
    if s != [] {
      FilterAll(s[1..], keep);
      assert s == [s[0]] + s[1..];
      assert s[0] in s;
      assert forall b :: b in s <==> b == s[0] || b in s[1..];
      if !keep(s[0]) {
        assert |Filter(s, keep)| < |s|;
      }
    }
  }

  /** Two bundles of a distinct list with the same id are the same bundle. */
  lemma {:induction false} SameId(s: seq<Bundle>, x: Bundle, y: Bundle)
    requires Distinct(s) && x in s && y in s && x.id == y.id
    ensures x == y
  {
    var i :| 0 <= i < |s| && s[i] == x;
    var j :| 0 <= j < |s| && s[j] == y;
    assert i == j;
  }

  /** Find gives, and Replace overwrites, the first bundle with the id and no other. */
  lemma {:induction false} FirstMatch(s: seq<Bundle>, b: Bundle, i: nat)
    requires i < |s| && s[i].id == b.id && forall j :: 0 <= j < i ==> s[j].id != b.id
    ensures Find(s, b.id) == Some(s[i]) && Replace(s, b) == s[i := b]
  {
    if i > 0 {
      FirstMatch(s[1..], b, i - 1);
      assert s[i := b] == [s[0]] + s[1..][i - 1 := b];
    }
  }

  lemma {:induction false} ReplaceAt(s: seq<Bundle>, b: Bundle, i: nat)
    requires i < |s| && Distinct(s)
    ensures Replace(s, b)[i] == (if s[i].id == b.id then b else s[i])
  {
    if s[0].id != b.id && i > 0 {
      ReplaceAt(s[1..], b, i - 1);
    }
  }

  lemma {:induction false} ReplaceMembers(s: seq<Bundle>, b: Bundle)
    requires Distinct(s)
    ensures Distinct(Replace(s, b))
    ensures forall x :: x in Replace(s, b) <==> (x in s && x.id != b.id) || (x == b && Has(s, b.id))
  {
    var r := Replace(s, b);
    forall i | 0 <= i < |s| ensures r[i] == (if s[i].id == b.id then b else s[i]) {
      ReplaceAt(s, b, i);
    }
    forall x | x in s && x.id != b.id ensures x in r {
      var i :| 0 <= i < |s| && s[i] == x;
      assert r[i] == x;
    }
    if Has(s, b.id) {
      var i :| 0 <= i < |s| && s[i].id == b.id;
      assert r[i] == b;
    }
  }

  lemma {:induction false} CleanupFacts(s: seq<Bundle>, now: int)
    ensures Distinct(s) ==> Distinct(Cleanup(s, now))
    ensures |Cleanup(s, now)| == |s| <==> Cleanup(s, now) == s
    ensures Cleanup(Cleanup(s, now), now) == Cleanup(s, now)
  {
    var live := Unexpired(now);
    if Distinct(s) {
      FilterKeepsDistinct(s, live);
    }
    FilterAll(s, live);
    FilterAll(Cleanup(s, now), live);
  }

  lemma {:induction false} WithoutFacts(s: seq<Bundle>, id: Uuid)
    ensures Distinct(s) ==> Distinct(Without(s, id))
    ensures Has(s, id) ==> |Without(s, id)| < |s|
    ensures !Has(s, id) ==> Without(s, id) == s
    ensures !Has(Without(s, id), id)
  {
    var other := OtherThan(id);
    if Distinct(s) {
      FilterKeepsDistinct(s, other);
    }
    FilterAll(s, other);
  }

  // ---- Main results on single operations -----------------------------------------------------

  /** What save_bundle, update_bundle, delete_bundle and AbsorbAck keep. */
  predicate WellFormed(s: seq<Bundle>, capacity: nat) {
    Distinct(s) && |s| <= capacity
  }

  lemma {:induction false} SaveKeeps(s: seq<Bundle>, b: Bundle, now: int, capacity: nat)
    requires WellFormed(s, capacity)
    ensures WellFormed(Save(s, b, now, capacity).0, capacity)
    ensures Save(s, b, now, capacity).1 <==> Save(s, b, now, capacity).0 != Cleanup(s, now)
  {
    CleanupFacts(s, now);
    var kept := Cleanup(s, now);
    if Admissible(kept, b, capacity) {
      forall i | 0 <= i < |kept| ensures kept[i].id != b.id {
        assert kept[i] in kept;
      }
    }
  }

  lemma {:induction false} AbsorbKeeps(s: seq<Bundle>, ack: Bundle, now: int, capacity: nat)
    requires ack.kind.Ack? && WellFormed(s, capacity)
    ensures WellFormed(AbsorbAck(s, ack, now, capacity).0, capacity)
  {
    var dataId := ack.kind.ackBundleId;
    WithoutFacts(s, dataId);
    SaveKeeps(Without(s, dataId), ack, now, capacity);
  }

  /** An ACK always displaces its Data, even in a full store: the Data leaves, exactly one ACK for it
      is stored, at the end of the list, and every other unexpired bundle stays as it was, in order. */
  lemma {:induction false} AckDisplacesData(s: seq<Bundle>, ack: Bundle, now: int, capacity: nat)
    requires ack.kind.Ack? && WellFormed(s, capacity)
    requires Has(s, ack.kind.ackBundleId) && !HasAck(s, ack.kind.ackBundleId)
    requires !Has(s, ack.id) && ack.id != ack.kind.ackBundleId
    ensures AbsorbAck(s, ack, now, capacity)
            == (Filter(s, (b: Bundle) => b.id != ack.kind.ackBundleId && !IsExpired(b, now)) + [ack], true)
    ensures !Has(AbsorbAck(s, ack, now, capacity).0, ack.kind.ackBundleId)
    ensures WellFormed(AbsorbAck(s, ack, now, capacity).0, capacity)
    ensures forall b :: b in AbsorbAck(s, ack, now, capacity).0 && IsAckFor(b, ack.kind.ackBundleId) ==> b == ack
  {
    var dataId := ack.kind.ackBundleId;
    WithoutFacts(s, dataId);
    AbsorbKeeps(s, ack, now, capacity);
    FilterTwice(s, OtherThan(dataId), Unexpired(now),
                (b: Bundle) => b.id != ack.kind.ackBundleId && !IsExpired(b, now));
  }

  lemma {:induction false} FilterTwice(s: seq<Bundle>, p: Bundle -> bool, q: Bundle -> bool, both: Bundle -> bool)
    requires forall b :: both(b) <==> p(b) && q(b)
    ensures Filter(Filter(s, p), q) == Filter(s, both)
  {
    if s != [] {
      FilterTwice(s[1..], p, q, both);
    }
  }

  // ---- Deleting expired bundles one id at a time ---------------------------------------------

  function ExpiredIds(s: seq<Bundle>, now: int): seq<Uuid> {
    if s == [] then []
    else (if IsExpired(s[0], now) then [s[0].id] else []) + ExpiredIds(s[1..], now)
  }

  /** The store after deleting each id of the list in turn. */
  function DeleteAll(s: seq<Bundle>, ids: seq<Uuid>): seq<Bundle> {
    if ids == [] then s else Without(DeleteAll(s, ids[..|ids| - 1]), ids[|ids| - 1])
  }

  lemma {:induction false} DeleteAllIsFilter(s: seq<Bundle>, ids: seq<Uuid>)
    ensures DeleteAll(s, ids) == Filter(s, NotAmong(ids))
  {
    if ids == [] {
      FilterAll(s, NotAmong(ids));
    } else {
      var init, last := ids[..|ids| - 1], ids[|ids| - 1];
      assert ids == init + [last];
      DeleteAllIsFilter(s, init);
      FilterTwice(s, NotAmong(init), OtherThan(last), NotAmong(ids));
    }
  }

  lemma {:induction false} ExpiredIdsMembers(s: seq<Bundle>, now: int, id: Uuid)
    ensures id in ExpiredIds(s, now) <==> exists b :: b in s && b.id == id && IsExpired(b, now)
  {
    if s != [] {
      ExpiredIdsMembers(s[1..], now, id);
      assert s[0] in s;
      assert forall b :: b in s <==> b == s[0] || b in s[1..];
    }
  }

  lemma {:induction false} FilterAgrees(s: seq<Bundle>, p: Bundle -> bool, q: Bundle -> bool)
    requires forall b :: b in s ==> p(b) == q(b)
    ensures Filter(s, p) == Filter(s, q)
  {
    if s != [] {
      assert s[0] in s;
      forall b | b in s[1..] ensures p(b) == q(b) {
        assert b in s;
      }
      FilterAgrees(s[1..], p, q);
    }
  }

  /** drop_expired_bundles and cleanup_expired_bundles leave the same list. */
  lemma {:induction false} DropOneByOneIsCleanup(s: seq<Bundle>, now: int)
    requires Distinct(s)
    ensures DeleteAll(s, ExpiredIds(s, now)) == Cleanup(s, now)
  {
    var ids := ExpiredIds(s, now);
    DeleteAllIsFilter(s, ids);
    forall b | b in s ensures b.id !in ids <==> !IsExpired(b, now) {
      ExpiredIdsMembers(s, now, b.id);
      if b.id in ids {
        var x :| x in s && x.id == b.id && IsExpired(x, now);
        SameId(s, x, b);
      }
    }
    FilterAgrees(s, NotAmong(ids), Unexpired(now));
  }
}
