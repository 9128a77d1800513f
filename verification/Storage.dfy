/** The storage layer (src/storage/storage.rs) and the bundle manager above it
    (src/routing/bundleManager.rs), over a disk that several clones share. */
module Storage {
  import opened Model
  import opened Store
  import opened Table

  /** How writes of a file fare: each may also succeed or fail on its own. */
  datatype Writes = AllSucceed | AllFail | Vary

  /** One directory: the bundles of `bundles.json`, and how writing it fares. */
  class Disk {
    var file: seq<Bundle>
    var writes: Writes

    constructor (writes: Writes)
      ensures file == [] && this.writes == writes
    {
      file, this.writes := [], writes;
    }
  }

  class StorageLayer {
    const disk: Disk
    const capacity: nat
    var bundles: seq<Bundle>

    constructor (disk: Disk, capacity: nat)
      ensures this.disk == disk && this.capacity == capacity && bundles == disk.file
    {
      this.disk, this.capacity, this.bundles := disk, capacity, disk.file;
    }

    method RefreshFromDisk()
      modifies this
      ensures bundles == disk.file
    {
      bundles := disk.file;
    }

    /** Writes the copy in memory to the file, or leaves the file alone. */
    method SaveToFile() returns (ok: bool)
      modifies disk`file
      ensures disk.writes.AllSucceed? ==> ok
      ensures disk.writes.AllFail? ==> !ok
      ensures disk.file == if ok then bundles else old(disk.file)
    {
      match disk.writes {
        case AllSucceed => ok := true;
        case AllFail => ok := false;
        case Vary => ok := *;
      }
      if ok {
        disk.file := bundles;
      }
    }

    method CleanupExpiredBundles(now: int) returns (removed: nat)
      modifies this, disk`file
      ensures removed == |old(disk.file)| - |Cleanup(old(disk.file), now)|
      ensures bundles == Cleanup(old(disk.file), now)
      ensures disk.file == bundles || disk.file == old(disk.file)
      ensures disk.writes.AllSucceed? ==> disk.file == bundles
      ensures disk.writes.AllFail? ==> disk.file == old(disk.file)
    {
      RefreshFromDisk();
      var initialLen := |bundles|;
      CleanupFacts(bundles, now);
      bundles := Cleanup(bundles, now);
      removed := initialLen - |bundles|;
      if removed > 0 {
        var _ := SaveToFile();
      }
    }

    method SaveBundle(bundle: Bundle, now: int) returns (ok: bool)
      modifies this, disk`file
      ensures disk.writes.AllSucceed? ==> (disk.file, ok) == Save(old(disk.file), bundle, now, capacity)
      ensures disk.writes.AllFail? ==> disk.file == old(disk.file) && !ok
      ensures ok ==> (disk.file, ok) == Save(old(disk.file), bundle, now, capacity)
      ensures !ok ==> disk.file == old(disk.file) || disk.file == Cleanup(old(disk.file), now)
      ensures WellFormed(old(disk.file), capacity) ==> WellFormed(disk.file, capacity)
    {
      StoreKeeps(disk.file, bundle, now, capacity);
      RefreshFromDisk();
      var _ := CleanupExpiredBundles(now);
      if bundle.kind.Data? && HasAck(bundles, bundle.id) {
        return false;
      }
      if |bundles| >= capacity {
        return false;
      }
      if Has(bundles, bundle.id) {
        return false;
      }
      bundles := bundles + [bundle];
      ok := SaveToFile();
    }

    method GetBundle(id: Uuid) returns (r: Option<Bundle>)
      modifies this
      ensures bundles == disk.file && r == Find(disk.file, id)
    {
      RefreshFromDisk();
      r := Find(bundles, id);
    }

    method GetAllBundles() returns (r: seq<Bundle>)
      modifies this
      ensures bundles == disk.file && r == disk.file
    {
      RefreshFromDisk();
      r := bundles;
    }

    method DeleteBundle(id: Uuid) returns (ok: bool)
      modifies this, disk`file
      ensures disk.writes.AllSucceed? ==> (disk.file, ok) == Delete(old(disk.file), id)
      ensures disk.writes.AllFail? ==> !ok
      ensures ok ==> (disk.file, ok) == Delete(old(disk.file), id)
      ensures !ok ==> disk.file == old(disk.file)
      ensures WellFormed(old(disk.file), capacity) ==> WellFormed(disk.file, capacity)
    {
      RefreshFromDisk();
      var initialLen := |bundles|;
      WithoutFacts(bundles, id);
      bundles := Without(bundles, id);
      if |bundles| < initialLen {
        ok := SaveToFile();
      } else {
        ok := false;
      }
    }

    method UpdateBundle(bundle: Bundle) returns (ok: bool)
      modifies this, disk`file
      ensures disk.writes.AllSucceed? ==> (disk.file, ok) == Update(old(disk.file), bundle)
      ensures disk.writes.AllFail? ==> !ok
      ensures ok ==> (disk.file, ok) == Update(old(disk.file), bundle)
      ensures !ok ==> disk.file == old(disk.file)
      ensures WellFormed(old(disk.file), capacity) ==> WellFormed(disk.file, capacity)
    {
      if Distinct(disk.file) {
        ReplaceMembers(disk.file, bundle);
      }
      RefreshFromDisk();
      if bundle.kind.Data? && HasAck(bundles, bundle.id) {
        return false;
      }
      if Has(bundles, bundle.id) {
        bundles := Replace(bundles, bundle);
        ok := SaveToFile();
      } else {
        ok := false;
      }
    }
  }

  /** What a call whose writes may fail can leave and reply: as if all had succeeded, or the reply of a failure with
      nothing written, or, for a save, with only its cleanup written. */
  predicate Possible(t: Table, c: Call, now: int, capacity: nat, t': Table, reply: Reply) {
    || (t', reply) == Apply(t, c, now, capacity)
    || (t' == t && reply == FailureOf(t, c, now))
    || (c.CallSave? && t' == Expire(t, now).0 && reply == FailureOf(t, c, now))
  }

  /** The reply when the write fails; a cleanup reports its count, and the queries do not write. */
  function FailureOf(t: Table, c: Call, now: int): Reply {
    match c
    case CallSave(_) => Flag(false)
    case CallUpdate(_) => Flag(false)
    case CallDelete(_) => Flag(false)
    case CallCleanup => Count(Expire(t, now).1)
    case CallGet(id) => Found(Lookup(t, id))
    case CallAll => Listing(Rows(t.order, t.entries))
  }

  /** The same of the list in the file. */
  predicate PossibleOnList(s: seq<Bundle>, c: Call, now: int, capacity: nat, s': seq<Bundle>, reply: Reply) {
    || (s', reply) == ApplyToList(s, c, now, capacity)
    || (s' == s && reply == FailureOnList(s, c, now))
    || (c.CallSave? && s' == Cleanup(s, now) && reply == FailureOnList(s, c, now))
  }

  function FailureOnList(s: seq<Bundle>, c: Call, now: int): Reply {
    match c
    case CallSave(_) => Flag(false)
    case CallUpdate(_) => Flag(false)
    case CallDelete(_) => Flag(false)
    case CallCleanup => Count(|s| - |Cleanup(s, now)|)
    case CallGet(id) => Found(Find(s, id))
    case CallAll => Listing(s)
  }

  lemma {:induction false} PossibleRefines(s: seq<Bundle>, c: Call, now: int, capacity: nat, s': seq<Bundle>,
                                           reply: Reply)
    requires Distinct(s) && PossibleOnList(s, c, now, capacity, s', reply)
    ensures Distinct(s') && Possible(View(s), c, now, capacity, View(s'), reply)
  {
    if (s', reply) == ApplyToList(s, c, now, capacity) {
      Refines(s, c, now, capacity);
    } else {
      FailureRefines(s, c, now);
      CleanupRefines(s, now);
    }
  }

  lemma {:induction false} FailureRefines(s: seq<Bundle>, c: Call, now: int)
    requires Distinct(s)
    ensures FailureOnList(s, c, now) == FailureOf(View(s), c, now)
  {
    match c
    case CallSave(_) =>
    case CallUpdate(_) =>
    case CallDelete(_) =>
    case CallCleanup => CleanupRefines(s, now);
    case CallGet(id) => GetRefines(s, id);
    case CallAll => ViewRoundTrip(s);
  }

  /** One call of the storage interface on one clone. */
  method Dispatch(layer: StorageLayer, call: Call, now: int) returns (reply: Reply)
    modifies layer, layer.disk`file
    ensures layer.disk.writes.AllSucceed? ==>
              (layer.disk.file, reply) == ApplyToList(old(layer.disk.file), call, now, layer.capacity)
    ensures PossibleOnList(old(layer.disk.file), call, now, layer.capacity, layer.disk.file, reply)
  {
    match call
    case CallSave(b) =>
      var ok := layer.SaveBundle(b, now);
      reply := Flag(ok);
    case CallUpdate(b) =>
      var ok := layer.UpdateBundle(b);
      reply := Flag(ok);
    case CallDelete(id) =>
      var ok := layer.DeleteBundle(id);
      reply := Flag(ok);
    case CallCleanup =>
      var n := layer.CleanupExpiredBundles(now);
      reply := Count(n);
    case CallGet(id) =>
      var b := layer.GetBundle(id);
      reply := Found(b);
    case CallAll =>
      var bs := layer.GetAllBundles();
      reply := Listing(bs);
  }

  /** A call made through clone number `who` when the clock reads `now`. */
  datatype Request = Request(who: nat, call: Call, now: int)

  /** The reference run: one table serves every request in turn. */
  function Serve(t: Table, requests: seq<Request>, capacity: nat): (Table, seq<Reply>) {
    if requests == [] then (t, [])
    else
      var last := requests[|requests| - 1];
      var (before, replies) := Serve(t, requests[..|requests| - 1], capacity);
      var (after, reply) := Apply(before, last.call, last.now, capacity);
      (after, replies + [reply])
  }

  /** A run of one table in which writes may fail. */
  predicate Served(tables: seq<Table>, requests: seq<Request>, replies: seq<Reply>, capacity: nat) {
    && |tables| == |requests| + 1 && |replies| == |requests|
    && forall i :: 0 <= i < |requests| ==>
         Possible(tables[i], requests[i].call, requests[i].now, capacity, tables[i + 1], replies[i])
  }

  /** Any requests over any number of clones of one directory give the replies and the file of one table, whatever
      the copies in the clones' memory are; if writes fail, those of one table whose writes may fail. */
  method ServeThroughClones(disk: Disk, clones: seq<StorageLayer>, capacity: nat, requests: seq<Request>)
    returns (replies: seq<Reply>, ghost tables: seq<Table>)
    requires Distinct(disk.file)
    requires forall c :: c in clones ==> c.disk == disk && c.capacity == capacity
    requires forall r :: r in requests ==> r.who < |clones|
    modifies disk`file, set c | c in clones
    ensures Distinct(disk.file)
    ensures disk.writes.AllSucceed? ==> (View(disk.file), replies) == Serve(View(old(disk.file)), requests, capacity)
    ensures Served(tables, requests, replies, capacity)
    ensures tables[0] == View(old(disk.file)) && tables[|requests|] == View(disk.file)
  {
    replies, tables := [], [View(disk.file)];
    for i := 0 to |requests|
      invariant Distinct(disk.file)
      invariant disk.writes.AllSucceed? ==>
                  (View(disk.file), replies) == Serve(View(old(disk.file)), requests[..i], capacity)
      invariant Served(tables, requests[..i], replies, capacity)
      invariant tables[0] == View(old(disk.file)) && tables[i] == View(disk.file)
    {
      var r := requests[i];
      assert r in requests && clones[r.who] in clones;
      ghost var before := disk.file;
      Refines(before, r.call, r.now, capacity);
      var reply := Dispatch(clones[r.who], r.call, r.now);
      PossibleRefines(before, r.call, r.now, capacity, disk.file, reply);
      assert requests[..i + 1][..i] == requests[..i];
      ServedSnoc(tables, requests, i, replies, capacity, View(disk.file), reply);
      replies, tables := replies + [reply], tables + [View(disk.file)];
    }
    assert requests[..|requests|] == requests;
  }

  lemma {:induction false} ServedSnoc(tables: seq<Table>, requests: seq<Request>, i: nat, replies: seq<Reply>,
                                      capacity: nat, t: Table, reply: Reply)
    requires i < |requests| && Served(tables, requests[..i], replies, capacity)
    requires Possible(tables[i], requests[i].call, requests[i].now, capacity, t, reply)
    ensures Served(tables + [t], requests[..i + 1], replies + [reply], capacity)
  {
    forall k | 0 <= k < i + 1
      ensures Possible((tables + [t])[k], requests[..i + 1][k].call, requests[..i + 1][k].now, capacity,
                       (tables + [t])[k + 1], (replies + [reply])[k])
    {
      if k < i {
        assert requests[..i + 1][k] == requests[..i][k];
      }
    }
  }

  // ---- Bundle manager ------------------------------------------------------------------------

  class BundleManager {
    const nodeId: Uuid
    const storage: StorageLayer

    constructor (nodeId: Uuid, storage: StorageLayer)
      ensures this.nodeId == nodeId && this.storage == storage
    {
      this.nodeId, this.storage := nodeId, storage;
    }

    method UpsertBundle(bundle: Bundle, now: int) returns (ok: bool)
      modifies storage, storage.disk`file
      ensures storage.disk.writes.AllSucceed? ==>
                (storage.disk.file, ok) == Upsert(old(storage.disk.file), bundle, now, storage.capacity)
      ensures storage.disk.writes.AllFail? ==> storage.disk.file == old(storage.disk.file) && !ok
      ensures ok ==> (storage.disk.file, ok) == Upsert(old(storage.disk.file), bundle, now, storage.capacity)
      ensures !ok ==> storage.disk.file == old(storage.disk.file)
                      || storage.disk.file == Cleanup(old(storage.disk.file), now)
      ensures WellFormed(old(storage.disk.file), storage.capacity) ==> WellFormed(storage.disk.file, storage.capacity)
    {
      var known := storage.GetBundle(bundle.id);
      if known.Some? {
        ok := storage.UpdateBundle(bundle);
      } else {
        ok := storage.SaveBundle(bundle, now);
      }
    }

    method HasAckForDataBundle(dataId: Uuid) returns (r: bool)
      modifies storage
      ensures r == HasAck(storage.disk.file, dataId)
    {
      var all := storage.GetAllBundles();
      r := HasAck(all, dataId);
    }

    method HasBundle(id: Uuid) returns (r: bool)
      modifies storage
      ensures r == Has(storage.disk.file, id)
    {
      var b := storage.GetBundle(id);
      r := b.Some?;
    }

    /** Marks the acknowledged Data bundle Delivered, deletes it, and keeps one ACK per Data bundle. */
    method HandleIncomingAck(ack: Bundle, now: int) returns (firstSeen: bool)
      modifies storage, storage.disk`file
      ensures !ack.kind.Ack? ==> !firstSeen && storage.disk.file == old(storage.disk.file)
      ensures ack.kind.Ack? && storage.disk.writes.AllSucceed? ==>
                (storage.disk.file, firstSeen) == AbsorbAck(old(storage.disk.file), ack, now, storage.capacity)
      ensures storage.disk.writes.AllFail? ==> storage.disk.file == old(storage.disk.file) && !firstSeen
      ensures WellFormed(old(storage.disk.file), storage.capacity) ==> WellFormed(storage.disk.file, storage.capacity)
      ensures firstSeen ==> ack in storage.disk.file
    {
      if ack.kind.Ack? {
        var dataId := ack.kind.ackBundleId;
        RemoveAcknowledged(dataId);
        var acknowledged := HasAckForDataBundle(dataId);
        if acknowledged {
          return false;
        }
        var known := storage.GetBundle(ack.id);
        if known.Some? {
          return false;
        }
        StoreKeeps(storage.disk.file, ack, now, storage.capacity);
        firstSeen := storage.SaveBundle(ack, now);
      } else {
        firstSeen := false;
      }
    }

    /** The first half of handling an ACK. */
    method RemoveAcknowledged(dataId: Uuid)
      modifies storage, storage.disk`file
      ensures storage.disk.writes.AllSucceed? ==> storage.disk.file == Without(old(storage.disk.file), dataId)
      ensures storage.disk.writes.AllFail? ==> storage.disk.file == old(storage.disk.file)
      ensures WellFormed(old(storage.disk.file), storage.capacity) ==> WellFormed(storage.disk.file, storage.capacity)
    {
      var data := storage.GetBundle(dataId);
      WithoutFacts(storage.disk.file, dataId);
      if data.Some? {
        var delivered := data.value.(status := Delivered);
        DeleteAfterUpdate(storage.disk.file, delivered);
        var _ := storage.UpdateBundle(delivered);
        WithoutFacts(storage.disk.file, dataId);
        var _ := storage.DeleteBundle(dataId);
      }
    }
  }

  /** A save keeps a store well-formed, also if only its cleanup is written. */
  lemma {:induction false} StoreKeeps(s: seq<Bundle>, b: Bundle, now: int, capacity: nat)
    ensures WellFormed(s, capacity) ==>
              WellFormed(Save(s, b, now, capacity).0, capacity) && WellFormed(Cleanup(s, now), capacity)
    ensures Save(s, b, now, capacity).1 ==> b in Save(s, b, now, capacity).0
  {
    if WellFormed(s, capacity) {
      SaveKeeps(s, b, now, capacity);
      CleanupFacts(s, now);
    }
  }

  /** Overwriting a bundle just before deleting it changes nothing. */
  lemma {:induction false} DeleteAfterUpdate(s: seq<Bundle>, b: Bundle)
    ensures Without(Replace(s, b), b.id) == Without(s, b.id)
  {
    if s != [] && s[0].id == b.id {
      assert ([b] + s[1..])[1..] == s[1..];
    } else if s != [] {
      DeleteAfterUpdate(s[1..], b);
    }
  }
}
