/** The storage layer at the granularity of STORAGE_IO_LOCK (src/storage/storage.rs): any number of threads of one
    process share the directory; every read of the file and every write is a critical section of its own, a write
    goes through `bundles.json.tmp` and a rename, reads and writes may fail, and the process may crash anywhere. */
module Locks {
  import opened Model
  import opened Store
  import Table

  datatype Op = OpSave(b: Bundle) | OpUpdate(b: Bundle) | OpDelete(id: Uuid) | OpCleanup

  /** A write, as the whole operation it stands for, with the clock reading it was computed at. */
  datatype Commit = Commit(op: Op, now: int)

  /** What the operation does to a list when nothing interferes. */
  function Effect(s: seq<Bundle>, c: Commit, capacity: nat): seq<Bundle> {
    match c.op
    case OpSave(b) => Save(s, b, c.now, capacity).0
    case OpUpdate(b) => Update(s, b).0
    case OpDelete(id) => Delete(s, id).0
    case OpCleanup => Cleanup(s, c.now)
  }

  /** What a thread is about to write: the list in its memory, the file it was computed from, and what follows. */
  datatype Write = Write(mem: seq<Bundle>, base: seq<Bundle>, commit: Commit, next: Option<Bundle>)

  datatype Thread =
    | Idle(result: Option<bool>)     // no call in progress; the last one's result
    | Begins(op: Op)                 // before the first read
    | Cleans(b: Bundle)              // save_bundle, before the read inside its cleanup
    | Flushes(p: Write)            // before a write
    | Writes(p: Write)             // holds the lock; the temporary file is incomplete
    | Renames(p: Write)            // holds the lock; the temporary file is complete

  /** `log` lists the completed writes; `tidy` says that each found the file it was computed from. */
  datatype Sys = Sys(
    capacity: nat,
    file: seq<Bundle>,
    temp: Option<seq<Bundle>>,
    lock: Option<nat>,
    threads: map<nat, Thread>,
    log: seq<Commit>,
    tidy: bool)

  datatype Event =
    | Start(t: nat, op: Op)
    | Read(t: nat, now: int)
    | ReadFails(t: nat, now: int)    // the file cannot be read or parsed: it counts as empty
    | Create(t: nat, junk: seq<Bundle>)
    | Fill(t: nat)
    | Rename(t: nat)
    | Fail(t: nat)
    | Crash

  predicate Enabled(s: Sys, e: Event) {
    match e
    case Start(t, _) => t !in s.threads || s.threads[t].Idle?
    case Read(t, _) => s.lock == None && t in s.threads && (s.threads[t].Begins? || s.threads[t].Cleans?)
    case ReadFails(t, _) => s.lock == None && t in s.threads && (s.threads[t].Begins? || s.threads[t].Cleans?)
    case Create(t, _) => s.lock == None && t in s.threads && s.threads[t].Flushes?
    case Fill(t) => t in s.threads && s.threads[t].Writes?
    case Rename(t) => t in s.threads && s.threads[t].Renames?
    case Fail(t) => t in s.threads && (s.threads[t].Writes? || s.threads[t].Renames?)
    case Crash => true
  }

  /** The rest of save_bundle once its cleanup left `kept` in memory, computed from `base`. */
  function Decide(kept: seq<Bundle>, base: seq<Bundle>, b: Bundle, now: int, capacity: nat): Thread {
    if Admissible(kept, b, capacity) then Flushes(Write(kept + [b], base, Commit(OpSave(b), now), None))
    else Idle(Some(false))
  }

  /** The thread after reading `file`. */
  function AfterRead(th: Thread, file: seq<Bundle>, now: int, capacity: nat): Thread
    requires th.Begins? || th.Cleans?
  {
    if th.Cleans? then
      var kept := Cleanup(file, now);
      if |kept| < |file| then Flushes(Write(kept, file, Commit(OpCleanup, now), Some(th.b)))
      else Decide(kept, file, th.b, now, capacity)
    else
      match th.op
      case OpSave(b) => Cleans(b)
      case OpUpdate(b) =>
        if Update(file, b).1 then Flushes(Write(Update(file, b).0, file, Commit(th.op, now), None))
        else Idle(Some(false))
      case OpDelete(id) =>
        if Delete(file, id).1 then Flushes(Write(Delete(file, id).0, file, Commit(th.op, now), None))
        else Idle(Some(false))
      case OpCleanup =>
        if |Cleanup(file, now)| < |file| then Flushes(Write(Cleanup(file, now), file, Commit(th.op, now), None))
        else Idle(Some(true))
  }

  /** After a write: a save goes on behind its cleanup, whose write may have failed; any other call is over. */
  function AfterWrite(p: Write, ok: bool, capacity: nat): Thread {
    if p.next.Some? then Decide(p.mem, if ok then p.mem else p.base, p.next.value, p.commit.now, capacity)
    else Idle(Some(ok))
  }

  function Next(s: Sys, e: Event): Sys
    requires Enabled(s, e)
  {
    match e
    case Start(t, op) => s.(threads := s.threads[t := Begins(op)])
    case Read(t, now) => s.(threads := s.threads[t := AfterRead(s.threads[t], s.file, now, s.capacity)])
    case ReadFails(t, now) => s.(threads := s.threads[t := AfterRead(s.threads[t], [], now, s.capacity)])
    case Create(t, junk) => s.(lock := Some(t), temp := Some(junk), threads := s.threads[t := Writes(s.threads[t].p)])
    case Fill(t) => s.(temp := Some(s.threads[t].p.mem), threads := s.threads[t := Renames(s.threads[t].p)])
    case Rename(t) =>
      var p := s.threads[t].p;
      s.(file := if s.temp.Some? then s.temp.value else s.file,
         temp := None,
         lock := None,
         threads := s.threads[t := AfterWrite(p, true, s.capacity)],
         log := s.log + [p.commit],
         tidy := s.tidy && s.file == p.base)
    case Fail(t) => s.(lock := None, threads := s.threads[t := AfterWrite(s.threads[t].p, false, s.capacity)])
    case Crash => s.(lock := None, threads := map[])
  }

  // ---- The invariant -------------------------------------------------------------------------

  predicate WriteWell(p: Write, capacity: nat) {
    && WellFormed(p.base, capacity)
    && WellFormed(p.mem, capacity)
    && p.mem == Effect(p.base, p.commit, capacity)
    && (p.next.Some? ==> p.commit.op == OpCleanup)
  }

  predicate ThreadWell(th: Thread, capacity: nat) {
    th.Flushes? || th.Writes? || th.Renames? ==> WriteWell(th.p, capacity)
  }

  predicate Inv(s: Sys) {
    && WellFormed(s.file, s.capacity)
    && (forall t :: t in s.threads ==> ThreadWell(s.threads[t], s.capacity))
    && (forall t :: t in s.threads && (s.threads[t].Writes? || s.threads[t].Renames?) ==> s.lock == Some(t))
    && (forall t :: t in s.threads && s.threads[t].Renames? ==> s.temp == Some(s.threads[t].p.mem))
  }

  /** The list after running the operations of a log one after another. */
  function Replay(first: seq<Bundle>, log: seq<Commit>, capacity: nat): seq<Bundle> {
    if log == [] then first else Effect(Replay(first, log[..|log| - 1], capacity), log[|log| - 1], capacity)
  }

  /** As long as every write finds the file it was computed from, the file is that of the serial run. */
  predicate Serial(s: Sys, first: seq<Bundle>) {
    s.tidy ==> s.file == Replay(first, s.log, s.capacity)
  }

  lemma {:induction false} EffectKeeps(s: seq<Bundle>, c: Commit, capacity: nat)
    requires WellFormed(s, capacity)
    ensures WellFormed(Effect(s, c, capacity), capacity)
  {
    match c.op
    case OpSave(b) => SaveKeeps(s, b, c.now, capacity);
    case OpUpdate(b) => ReplaceMembers(s, b);
    case OpDelete(id) => WithoutFacts(s, id);
    case OpCleanup => CleanupFacts(s, c.now);
  }

  lemma {:induction false} DecideIsWell(kept: seq<Bundle>, base: seq<Bundle>, b: Bundle, now: int, capacity: nat)
    requires WellFormed(base, capacity) && (kept == Cleanup(base, now))
    ensures ThreadWell(Decide(kept, base, b, now, capacity), capacity)
  {
    SaveKeeps(base, b, now, capacity);
  }

  lemma {:induction false} AfterReadIsWell(th: Thread, file: seq<Bundle>, now: int, capacity: nat)
    requires (th.Begins? || th.Cleans?) && WellFormed(file, capacity)
    ensures ThreadWell(AfterRead(th, file, now, capacity), capacity)
    ensures var r := AfterRead(th, file, now, capacity); r.Idle? || r.Cleans? || r.Flushes?
  {
    if th.Cleans? {
      EffectKeeps(file, Commit(OpCleanup, now), capacity);
      DecideIsWell(Cleanup(file, now), file, th.b, now, capacity);
    } else {
      EffectKeeps(file, Commit(th.op, now), capacity);
    }
  }

  lemma {:induction false} AfterWriteIsWell(p: Write, ok: bool, capacity: nat)
    requires WriteWell(p, capacity)
    ensures ThreadWell(AfterWrite(p, ok, capacity), capacity)
    ensures AfterWrite(p, ok, capacity).Idle? || AfterWrite(p, ok, capacity).Flushes?
  {
    if p.next.Some? {
      CleanupFacts(p.base, p.commit.now);
      DecideIsWell(p.mem, if ok then p.mem else p.base, p.next.value, p.commit.now, capacity);
    }
  }

  /** Every critical section, failure and crash keeps the invariant, and the serial reading of tidy histories. */
  lemma {:induction false} EventKeepsInv(s: Sys, e: Event, first: seq<Bundle>)
    requires Inv(s) && Serial(s, first) && Enabled(s, e)
    ensures Inv(Next(s, e)) && Serial(Next(s, e), first)
  {
    match e
    case Start(t, op) =>
    case Read(t, now) => AfterReadIsWell(s.threads[t], s.file, now, s.capacity);
    case ReadFails(t, now) => AfterReadIsWell(s.threads[t], [], now, s.capacity);
    case Create(t, junk) =>
    case Fill(t) =>
    case Rename(t) =>
      var p := s.threads[t].p;
      AfterWriteIsWell(p, true, s.capacity);
      assert (s.log + [p.commit])[..|s.log|] == s.log;
    case Fail(t) => AfterWriteIsWell(s.threads[t].p, false, s.capacity);
    case Crash =>
  }

  // ---- Runs ----------------------------------------------------------------------------------

  /** A process has just started on a directory. */
  predicate Initial(s: Sys) {
    WellFormed(s.file, s.capacity) && s.lock == None && s.threads == map[] && s.log == [] && s.tidy
  }

  predicate IsRun(states: seq<Sys>, events: seq<Event>) {
    && |states| == |events| + 1
    && Initial(states[0])
    && forall i {:trigger events[i]} :: 0 <= i < |events| ==>
         Enabled(states[i], events[i]) && states[i + 1] == Next(states[i], events[i])
  }

  lemma {:induction false} InvAlways(states: seq<Sys>, events: seq<Event>, i: nat)
    requires IsRun(states, events) && i < |states|
    ensures Inv(states[i]) && Serial(states[i], states[0].file)
  {
    if i > 0 {
      InvAlways(states, events, i - 1);
      EventKeepsInv(states[i - 1], events[i - 1], states[0].file);
    }
  }

  /** Whatever the interleaving, the failures and the crashes: the file always holds distinct ids and at most
      `capacity` bundles. */
  lemma {:induction false} FileIsAlwaysWellFormed(states: seq<Sys>, events: seq<Event>, i: nat)
    requires IsRun(states, events) && i < |states|
    ensures Distinct(states[i].file) && |states[i].file| <= states[0].capacity
  {
    InvAlways(states, events, i);
    SameCapacity(states, events, i);
  }

  lemma {:induction false} SameCapacity(states: seq<Sys>, events: seq<Event>, i: nat)
    requires IsRun(states, events) && i < |states|
    ensures states[i].capacity == states[0].capacity
  {
    if i > 0 {
      SameCapacity(states, events, i - 1);
      assert states[i] == Next(states[i - 1], events[i - 1]);
    }
  }

  /** If every write so far found the file it was computed from, the file is the result of the completed operations
      run whole, one after another. */
  lemma {:induction false} UndisturbedIsSerial(states: seq<Sys>, events: seq<Event>, i: nat)
    requires IsRun(states, events) && i < |states| && states[i].tidy
    ensures states[i].file == Replay(states[0].file, states[i].log, states[0].capacity)
  {
    InvAlways(states, events, i);
    SameCapacity(states, events, i);
  }

  // ---- What a rename writes ------------------------------------------------------------------

  predicate NoReadFails(events: seq<Event>) {
    forall e :: e in events ==> !e.ReadFails?
  }

  /** The position up to `i` of the file that thread `t` last read or last wrote; 0 if it did neither. */
  function LastSeen(events: seq<Event>, i: nat, t: nat): (k: nat)
    requires i <= |events|
    ensures k <= i
  {
    if i == 0 then 0
    else if events[i - 1].Read? && events[i - 1].t == t then i - 1
    else if events[i - 1].Rename? && events[i - 1].t == t then i
    else LastSeen(events, i - 1, t)
  }

  predicate AboutToWrite(s: Sys, t: nat) {
    t in s.threads && (s.threads[t].Flushes? || s.threads[t].Writes? || s.threads[t].Renames?)
  }

  /** Where a thread that is about to write has the file from: its own read or write, or the step before. */
  lemma {:induction false} BaseStep(s: Sys, e: Event, t: nat)
    requires Inv(s) && Enabled(s, e) && !e.ReadFails? && AboutToWrite(Next(s, e), t)
    ensures e.Read? && e.t == t ==> Next(s, e).threads[t].p.base == s.file
    ensures e.Rename? && e.t == t ==> Next(s, e).threads[t].p.base == Next(s, e).file
    ensures !((e.Read? || e.Rename?) && e.t == t) ==>
              AboutToWrite(s, t) && Next(s, e).threads[t].p.base == s.threads[t].p.base
  {
    if e.Rename? && e.t == t {
      assert s.temp == Some(s.threads[t].p.mem);
    }
  }

  /** A thread about to write computed its list from the file it last saw. */
  lemma {:induction false} BaseIsLastSeen(states: seq<Sys>, events: seq<Event>, i: nat, t: nat)
    requires IsRun(states, events) && i < |states| && NoReadFails(events)
    requires AboutToWrite(states[i], t)
    ensures states[i].threads[t].p.base == states[LastSeen(events, i, t)].file
  {
    if i > 0 {
      var e := events[i - 1];
      assert e in events;
      InvAlways(states, events, i - 1);
      BaseStep(states[i - 1], e, t);
      if !((e.Read? || e.Rename?) && e.t == t) {
        BaseIsLastSeen(states, events, i - 1, t);
      }
    }
  }

  /** In any run without failing reads, every rename replaces the file by what its operation makes of the file that its
      thread last read or last wrote: it undoes exactly what the other threads did since. */
  lemma {:induction false} RenameWritesLastSeen(states: seq<Sys>, events: seq<Event>, i: nat)
    requires IsRun(states, events) && i < |events| && NoReadFails(events) && events[i].Rename?
    ensures |states[i + 1].log| == |states[i].log| + 1
    ensures states[i + 1].file
            == Effect(states[LastSeen(events, i, events[i].t)].file, states[i + 1].log[|states[i].log|],
                      states[0].capacity)
  {
    var t := events[i].t;
    InvAlways(states, events, i);
    SameCapacity(states, events, i);
    assert states[i + 1] == Next(states[i], events[i]);
    BaseIsLastSeen(states, events, i, t);
  }

  // ---- Schedules that are serial -------------------------------------------------------------

  /** Between another thread's rename and its own, a thread always reads the file again. */
  predicate Rereads(events: seq<Event>) {
    forall i, j :: 0 <= i < j < |events| && events[i].Rename? && events[j].Rename? && events[i].t != events[j].t
      ==> ReadsBetween(events, i, j, events[j].t)
  }

  predicate ReadsBetween(events: seq<Event>, i: int, j: int, t: nat) {
    exists k :: 0 <= i < k < j <= |events| && events[k].Read? && events[k].t == t
  }

  /** What thread `t` read last is still the file: no other thread has renamed since. */
  predicate UpToDate(events: seq<Event>, t: nat) {
    if events == [] then true
    else
      var e := events[|events| - 1];
      if e.Read? && e.t == t then true
      else if e.Rename? && e.t != t then false
      else UpToDate(events[..|events| - 1], t)
  }

  /** A thread that is out of date has another thread's rename behind it, and no read since. */
  lemma {:induction false} OutOfDate(events: seq<Event>, t: nat) returns (i: nat)
    requires !UpToDate(events, t)
    ensures i < |events| && events[i].Rename? && events[i].t != t && !ReadsBetween(events, i, |events|, t)
  {
    var last := |events| - 1;
    if events[last].Rename? && events[last].t != t {
      i := last;
    } else {
      i := OutOfDate(events[..last], t);
      assert events[..last][i] == events[i];
      forall k | i < k < last ensures !(events[k].Read? && events[k].t == t) {
        assert events[..last][k] == events[k];
      }
    }
  }

  /** Every thread about to write computed its list from the file, if it is up to date. */
  predicate Current(s: Sys, events: seq<Event>) {
    forall t :: t in s.threads && AboutToWrite(s, t) && UpToDate(events, t) ==> s.threads[t].p.base == s.file
  }

  /** A rename of a thread that is up to date is tidy, and every other event keeps the history so. */
  lemma {:induction false} EventKeepsCurrent(s: Sys, e: Event, events: seq<Event>)
    requires Inv(s) && Enabled(s, e) && Current(s, events) && !e.ReadFails?
    requires e.Rename? ==> UpToDate(events, e.t)
    ensures Current(Next(s, e), events + [e])
    ensures s.tidy ==> Next(s, e).tidy
  {
    var s', after := Next(s, e), events + [e];
    assert after[..|events|] == events;
    forall t | AboutToWrite(s', t) && UpToDate(after, t)
      ensures s'.threads[t].p.base == s'.file
    {
      CurrentAfter(s, e, events, t);
    }
  }

  lemma {:induction false} CurrentAfter(s: Sys, e: Event, events: seq<Event>, t: nat)
    requires Inv(s) && Enabled(s, e) && Current(s, events) && !e.ReadFails? && UpToDate(events + [e], t)
    requires AboutToWrite(Next(s, e), t)
    ensures Next(s, e).threads[t].p.base == Next(s, e).file
  {
    var after := events + [e];
    assert after[..|events|] == events && after[|events|] == e;
    assert !(e.Read? && e.t == t) ==> UpToDate(events, t);
    BaseStep(s, e, t);
  }

  lemma {:induction false} StaysCurrent(states: seq<Sys>, events: seq<Event>, i: nat)
    requires IsRun(states, events) && i < |states| && Rereads(events) && NoReadFails(events)
    ensures Inv(states[i]) && Current(states[i], events[..i]) && states[i].tidy
  {
    InvAlways(states, events, i);
    if i > 0 {
      StaysCurrent(states, events, i - 1);
      var e := events[i - 1];
      assert e in events && events[..i] == events[..i - 1] + [e];
      if e.Rename? && !UpToDate(events[..i - 1], e.t) {
        var j := OutOfDate(events[..i - 1], e.t);
        RereadsAt(events, j, i - 1);
      }
      EventKeepsCurrent(states[i - 1], e, events[..i - 1]);
    }
  }

  lemma {:induction false} RereadsAt(events: seq<Event>, i: nat, j: nat)
    requires Rereads(events) && i < j < |events| && events[i].Rename? && events[j].Rename?
    requires events[i].t != events[j].t
    ensures ReadsBetween(events[..j], i, j, events[j].t)
  {
    assert ReadsBetween(events, i, j, events[j].t);
    var k :| i < k < j && events[k].Read? && events[k].t == events[j].t;
    assert events[..j][k] == events[k];
  }

  /** If between another thread's rename and its own every thread reads the file again, and no read fails, the file is
      the result of the completed operations run whole, one after another, whatever else interleaves. */
  lemma {:induction false} RereadingIsSerial(states: seq<Sys>, events: seq<Event>, i: nat)
    requires IsRun(states, events) && i < |states| && Rereads(events) && NoReadFails(events)
    ensures states[i].file == Replay(states[0].file, states[i].log, states[0].capacity)
  {
    StaysCurrent(states, events, i);
    UndisturbedIsSerial(states, events, i);
  }

  // ---- What a call reports -------------------------------------------------------------------

  /** The call in progress or last ended on thread `t`, before event `i`. */
  function CallOf(events: seq<Event>, i: nat, t: nat): Option<Op>
    requires i <= |events|
  {
    if i == 0 then None
    else
      match events[i - 1]
      case Crash => None
      case Start(u, op) => if u == t then Some(op) else CallOf(events, i - 1, t)
      case _ => CallOf(events, i - 1, t)
  }

  /** A look at the file: its content, empty if the read failed, and the clock. */
  datatype Look = Look(file: seq<Bundle>, now: int)

  /** The last look of that call. */
  function LookOf(states: seq<Sys>, events: seq<Event>, i: nat, t: nat): Option<Look>
    requires i <= |events| && |states| == |events| + 1
  {
    if i == 0 then None
    else
      match events[i - 1]
      case Crash => None
      case Start(u, _) => if u == t then None else LookOf(states, events, i - 1, t)
      case Read(u, now) => if u == t then Some(Look(states[i - 1].file, now)) else LookOf(states, events, i - 1, t)
      case ReadFails(u, now) => if u == t then Some(Look([], now)) else LookOf(states, events, i - 1, t)
      case _ => LookOf(states, events, i - 1, t)
  }

  /** Event `k` is a rename of thread `t` that logs this operation. */
  predicate Commits(states: seq<Sys>, events: seq<Event>, k: nat, t: nat, op: Op)
    requires k < |events| && |states| == |events| + 1
  {
    events[k] == Rename(t) && states[k + 1].log != [] && states[k + 1].log[|states[k + 1].log| - 1].op == op
  }

  /** Event `k` is a failure of thread `t` to write for this operation. */
  predicate FailsToCommit(states: seq<Sys>, events: seq<Event>, k: nat, t: nat, op: Op)
    requires k < |events| && |states| == |events| + 1
  {
    events[k] == Fail(t) && AboutToWrite(states[k], t) && states[k].threads[t].p.commit.op == op
  }

  /** The call committed its operation; it failed to. */
  predicate HasCommitted(states: seq<Sys>, events: seq<Event>, i: nat, t: nat, op: Op)
    requires i <= |events| && |states| == |events| + 1
  {
    i > 0 && !events[i - 1].Crash? && !(events[i - 1].Start? && events[i - 1].t == t)
    && (Commits(states, events, i - 1, t, op) || HasCommitted(states, events, i - 1, t, op))
  }

  predicate HasFailed(states: seq<Sys>, events: seq<Event>, i: nat, t: nat, op: Op)
    requires i <= |events| && |states| == |events| + 1
  {
    i > 0 && !events[i - 1].Crash? && !(events[i - 1].Start? && events[i - 1].t == t)
    && (FailsToCommit(states, events, i - 1, t, op) || HasFailed(states, events, i - 1, t, op))
  }

  /** The operation would succeed on what was seen. */
  predicate Accepts(op: Op, look: Look, capacity: nat) {
    match op
    case OpSave(b) => Admissible(Cleanup(look.file, look.now), b, capacity)
    case OpUpdate(b) => Update(look.file, b).1
    case OpDelete(id) => Delete(look.file, id).1
    case OpCleanup => true
  }

  /** Where a thread stands in its call. */
  predicate Stands(th: Thread, op: Op, look: Option<Look>, committed: bool, failed: bool, capacity: nat) {
    match th
    case Begins(o) => o == op
    case Cleans(b) => op == OpSave(b)
    case Idle(r) =>
      && r.Some?
      && (r.value ==> committed
                      || (op.OpCleanup? && look.Some?
                          && |Cleanup(look.value.file, look.value.now)| == |look.value.file|))
      && (!r.value ==> failed || (look.Some? && !Accepts(op, look.value, capacity)))
    case _ => look.Some? && PendingFor(th.p, op, look.value, capacity)
  }

  /** A write computed from this look, for the operation or for the cleanup before it. */
  predicate PendingFor(p: Write, op: Op, look: Look, capacity: nat) {
    if p.next.None? then
      p.commit == Commit(op, look.now) && p.mem == Effect(look.file, p.commit, capacity) && Accepts(op, look, capacity)
    else
      op == OpSave(p.next.value) && p.commit == Commit(OpCleanup, look.now) && p.mem == Cleanup(look.file, look.now)
  }

  /** Deciding on a save, after its look. */
  lemma {:induction false} DecideStands(kept: seq<Bundle>, base: seq<Bundle>, b: Bundle, look: Look, committed: bool,
                                        failed: bool, capacity: nat)
    requires kept == Cleanup(look.file, look.now)
    ensures Stands(Decide(kept, base, b, look.now, capacity), OpSave(b), Some(look), committed, failed, capacity)
  {
  }

  lemma {:induction false} ReadStands(th: Thread, op: Op, look: Look, before: Option<Look>, committed: bool,
                                      failed: bool, capacity: nat)
    requires (th.Begins? || th.Cleans?) && Stands(th, op, before, committed, failed, capacity)
    ensures Stands(AfterRead(th, look.file, look.now, capacity), op, Some(look), committed, failed, capacity)
  {
    if th.Cleans? {
      DecideStands(Cleanup(look.file, look.now), look.file, th.b, look, committed, failed, capacity);
      CleanupFacts(look.file, look.now);
    }
  }

  lemma {:induction false} WriteStands(p: Write, op: Op, look: Look, ok: bool, committed: bool, failed: bool,
                                       capacity: nat)
    requires PendingFor(p, op, look, capacity)
    requires p.next.None? ==> (if ok then committed else failed)
    ensures Stands(AfterWrite(p, ok, capacity), op, Some(look), committed, failed, capacity)
  {
    if p.next.Some? {
      DecideStands(p.mem, if ok then p.mem else p.base, p.next.value, look, committed, failed, capacity);
    }
  }

  lemma {:induction false} CallStands(states: seq<Sys>, events: seq<Event>, i: nat, t: nat)
    requires IsRun(states, events) && i < |states| && t in states[i].threads
    ensures var op := CallOf(events, i, t);
            op.Some? && Stands(states[i].threads[t], op.value, LookOf(states, events, i, t),
                               HasCommitted(states, events, i, t, op.value), HasFailed(states, events, i, t, op.value),
                               states[i].capacity)
  {
    if i > 0 {
      var e := events[i - 1];
      assert states[i] == Next(states[i - 1], e);
      if e.Crash? || (e.Start? && e.t == t) {
      } else {
        CallStands(states, events, i - 1, t);
        if e.t == t {
          OwnStep(states, events, i - 1, t);
        }
      }
    }
  }

  lemma {:induction false} OwnStep(states: seq<Sys>, events: seq<Event>, i: nat, t: nat)
    requires IsRun(states, events) && i < |events| && t in states[i].threads
    requires !events[i].Crash? && !events[i].Start? && events[i].t == t
    requires CallOf(events, i, t).Some?
    requires var op := CallOf(events, i, t).value;
             Stands(states[i].threads[t], op, LookOf(states, events, i, t), HasCommitted(states, events, i, t, op),
                    HasFailed(states, events, i, t, op), states[i].capacity)
    ensures var op := CallOf(events, i, t).value;
            Stands(states[i + 1].threads[t], op, LookOf(states, events, i + 1, t),
                   HasCommitted(states, events, i + 1, t, op), HasFailed(states, events, i + 1, t, op),
                   states[i + 1].capacity)
  {
    var e, s, op := events[i], states[i], CallOf(events, i, t).value;
    assert states[i + 1] == Next(s, e);
    var look := LookOf(states, events, i, t);
    var committed, failed := HasCommitted(states, events, i + 1, t, op), HasFailed(states, events, i + 1, t, op);
    match e
    case Read(_, now) => ReadStands(s.threads[t], op, Look(s.file, now), look, committed, failed, s.capacity);
    case ReadFails(_, now) => ReadStands(s.threads[t], op, Look([], now), look, committed, failed, s.capacity);
    case Rename(_) => WriteStands(s.threads[t].p, op, look.value, true, committed, failed, s.capacity);
    case Fail(_) => WriteStands(s.threads[t].p, op, look.value, false, committed, failed, s.capacity);
    case _ =>
  }

  /** Between `j` and `i`, thread `t` is in the one call that event `j` starts. */
  predicate InCall(events: seq<Event>, j: nat, i: nat, t: nat, op: Op) {
    && j < i <= |events| && events[j] == Start(t, op)
    && forall k :: j < k < i ==> !events[k].Crash? && !(events[k].Start? && events[k].t == t)
  }

  lemma {:induction false} CallStarted(events: seq<Event>, i: nat, t: nat) returns (j: nat)
    requires i <= |events| && CallOf(events, i, t).Some?
    ensures InCall(events, j, i, t, CallOf(events, i, t).value)
  {
    if events[i - 1].Start? && events[i - 1].t == t {
      j := i - 1;
    } else {
      j := CallStarted(events, i - 1, t);
    }
  }

  /** A commit, a failure or a look that the call has behind it is an event of the call. */
  lemma {:induction false} CommitWithin(states: seq<Sys>, events: seq<Event>, j: nat, i: nat, t: nat, op: Op)
    returns (k: nat)
    requires |states| == |events| + 1 && InCall(events, j, i, t, op) && HasCommitted(states, events, i, t, op)
    ensures j < k < i && Commits(states, events, k, t, op)
  {
    if Commits(states, events, i - 1, t, op) {
      k := i - 1;
    } else {
      k := CommitWithin(states, events, j, i - 1, t, op);
    }
  }

  lemma {:induction false} FailureWithin(states: seq<Sys>, events: seq<Event>, j: nat, i: nat, t: nat, op: Op)
    returns (k: nat)
    requires |states| == |events| + 1 && InCall(events, j, i, t, op) && HasFailed(states, events, i, t, op)
    ensures j < k < i && FailsToCommit(states, events, k, t, op)
  {
    if FailsToCommit(states, events, i - 1, t, op) {
      k := i - 1;
    } else {
      k := FailureWithin(states, events, j, i - 1, t, op);
    }
  }

  predicate LooksAt(states: seq<Sys>, events: seq<Event>, k: nat, t: nat, look: Look)
    requires k < |events| && |states| == |events| + 1
  {
    (events[k] == Read(t, look.now) && look.file == states[k].file)
    || (events[k] == ReadFails(t, look.now) && look.file == [])
  }

  lemma {:induction false} LookWithin(states: seq<Sys>, events: seq<Event>, j: nat, i: nat, t: nat, op: Op)
    returns (k: nat)
    requires |states| == |events| + 1 && InCall(events, j, i, t, op) && LookOf(states, events, i, t).Some?
    ensures j < k < i && LooksAt(states, events, k, t, LookOf(states, events, i, t).value)
    ensures forall m :: k < m < i ==> !((events[m].Read? || events[m].ReadFails?) && events[m].t == t)
  {
    if (events[i - 1].Read? || events[i - 1].ReadFails?) && events[i - 1].t == t {
      k := i - 1;
    } else {
      k := LookWithin(states, events, j, i - 1, t, op);
    }
  }

  /** What a call reports is true, whatever interleaves. A call that ended with success renamed a file that carries its
      own operation, save a cleanup that saw nothing expired; one that ended without had the write for its operation
      fail, or refused because of what it last saw of the file. */
  lemma {:induction false} EndedCall(states: seq<Sys>, events: seq<Event>, i: nat, t: nat)
    returns (j: nat, op: Op, k: nat, look: Look)
    requires IsRun(states, events) && i < |states| && t in states[i].threads && states[i].threads[t].Idle?
    ensures InCall(events, j, i, t, op) && j < k < i && states[i].threads[t].result.Some?
    ensures states[i].threads[t].result.value ==>
              || Commits(states, events, k, t, op)
              || (op.OpCleanup? && LooksAt(states, events, k, t, look) && Cleanup(look.file, look.now) == look.file)
    ensures !states[i].threads[t].result.value ==>
              || FailsToCommit(states, events, k, t, op)
              || (LooksAt(states, events, k, t, look) && !Accepts(op, look, states[i].capacity)
                  && forall m :: k < m < i ==> !((events[m].Read? || events[m].ReadFails?) && events[m].t == t))
  {
    CallStands(states, events, i, t);
    op := CallOf(events, i, t).value;
    j := CallStarted(events, i, t);
    look := Look([], 0);
    var result := states[i].threads[t].result.value;
    if result && HasCommitted(states, events, i, t, op) {
      k := CommitWithin(states, events, j, i, t, op);
    } else if !result && HasFailed(states, events, i, t, op) {
      k := FailureWithin(states, events, j, i, t, op);
    } else {
      look := LookOf(states, events, i, t).value;
      k := LookWithin(states, events, j, i, t, op);
      CleanupFacts(look.file, look.now);
    }
  }

  // ---- A call alone --------------------------------------------------------------------------

  /** No other thread does anything, and nothing fails. */
  predicate Alone(events: seq<Event>, j: nat, i: nat, t: nat) {
    j < i <= |events|
    && forall k :: j < k < i ==>
         (events[k].Read? || events[k].Create? || events[k].Fill? || events[k].Rename?) && events[k].t == t
  }

  /** The file while a call runs alone that found it as `first`. */
  predicate FileAlone(th: Thread, op: Op, look: Option<Look>, first: seq<Bundle>, file: seq<Bundle>, capacity: nat) {
    match th
    case Begins(_) => file == first
    case Cleans(_) => file == first
    case Idle(r) =>
      && look.Some? && look.value.file == first && r.Some?
      && r.value == Accepts(op, look.value, capacity)
      && file == Effect(first, Commit(op, look.value.now), capacity)
    case _ =>
      && look.Some? && look.value.file == first && PendingFor(th.p, op, look.value, capacity)
      && (th.p.next.Some? ==> file == first)
  }

  lemma {:induction false} RefusedLeavesFile(op: Op, look: Look, capacity: nat)
    requires !Accepts(op, look, capacity)
    ensures Effect(look.file, Commit(op, look.now), capacity)
            == if op.OpSave? then Cleanup(look.file, look.now) else look.file
  {
    if op.OpDelete? {
      FilterAll(look.file, OtherThan(op.id));
    }
  }

  lemma {:induction false} ReadAlone(th: Thread, op: Op, before: Option<Look>, first: seq<Bundle>, now: int,
                                     capacity: nat)
    requires (th.Begins? || th.Cleans?) && (if th.Begins? then th.op == op else op == OpSave(th.b))
    ensures FileAlone(AfterRead(th, first, now, capacity), op, Some(Look(first, now)), first, first, capacity)
  {
    var look := Look(first, now);
    CleanupFacts(first, now);
    if !Accepts(op, look, capacity) {
      RefusedLeavesFile(op, look, capacity);
    }
  }

  lemma {:induction false} RenameAlone(p: Write, op: Op, look: Look, capacity: nat)
    requires PendingFor(p, op, look, capacity)
    ensures FileAlone(AfterWrite(p, true, capacity), op, Some(look), look.file, p.mem, capacity)
  {
    if !Accepts(op, look, capacity) {
      RefusedLeavesFile(op, look, capacity);
    }
  }

  lemma {:induction false} StaysAlone(states: seq<Sys>, events: seq<Event>, j: nat, i: nat, t: nat, op: Op)
    requires IsRun(states, events) && j < i < |states| && events[j] == Start(t, op) && Alone(events, j, i, t)
    ensures t in states[i].threads && CallOf(events, i, t) == Some(op)
    ensures FileAlone(states[i].threads[t], op, LookOf(states, events, i, t), states[j].file, states[i].file,
                      states[i].capacity)
    ensures states[i].threads[t].Begins? ==> states[i].threads[t].op == op
    ensures states[i].threads[t].Cleans? ==> op == OpSave(states[i].threads[t].b)
  {
    var s, e := states[i - 1], events[i - 1];
    assert states[i] == Next(s, e);
    InvAlways(states, events, i - 1);
    if i - 1 > j {
      StaysAlone(states, events, j, i - 1, t, op);
      match e
      case Read(_, now) =>
        ReadAlone(s.threads[t], op, LookOf(states, events, i - 1, t), states[j].file, now, s.capacity);
      case Rename(_) =>
        RenameAlone(s.threads[t].p, op, LookOf(states, events, i - 1, t).value, s.capacity);
      case _ =>
    }
  }

  function Requested(op: Op): Table.Call {
    match op
    case OpSave(b) => Table.CallSave(b)
    case OpUpdate(b) => Table.CallUpdate(b)
    case OpDelete(id) => Table.CallDelete(id)
    case OpCleanup => Table.CallCleanup
  }

  /** A call that runs alone without failures does what the whole operation does, at the clock of its last look: the
      file, and for a save, an update and a delete the result too. */
  lemma {:induction false} AloneIsWhole(states: seq<Sys>, events: seq<Event>, j: nat, i: nat, t: nat, op: Op)
    returns (now: int)
    requires IsRun(states, events) && j < i < |states| && events[j] == Start(t, op) && Alone(events, j, i, t)
    requires t in states[i].threads && states[i].threads[t].Idle?
    ensures states[i].threads[t].result.Some?
    ensures var reply := Table.ApplyToList(states[j].file, Requested(op), now, states[i].capacity);
            && states[i].file == reply.0
            && (!op.OpCleanup? ==> reply.1 == Table.Flag(states[i].threads[t].result.value))
  {
    StaysAlone(states, events, j, i, t, op);
    now := LookOf(states, events, i, t).value.now;
  }

  // ---- Lost updates --------------------------------------------------------------------------

  lemma {:induction false} Extend(states: seq<Sys>, events: seq<Event>, e: Event)
    returns (states': seq<Sys>, events': seq<Event>)
    requires IsRun(states, events) && Enabled(states[|events|], e)
    ensures IsRun(states', events') && states'[0] == states[0] && events' == events + [e]
    ensures states'[|events'|] == Next(states[|events|], e)
  {
    states', events' := states + [Next(states[|events|], e)], events + [e];
    forall i | 0 <= i < |events'|
      ensures Enabled(states'[i], events'[i]) && states'[i + 1] == Next(states'[i], events'[i])
    {
      if i < |events| {
        assert events'[i] == events[i];
      }
    }
  }

  /** More of the same run, without failing reads. */
  predicate Continues(states: seq<Sys>, events: seq<Event>, states': seq<Sys>, events': seq<Event>) {
    IsRun(states', events') && states != [] && states'[0] == states[0] && (NoReadFails(events) ==> NoReadFails(events'))
  }

  /** A save that finds nothing expired and room gets ready to write its bundle behind the others. */
  lemma {:induction false} ReadsReady(states: seq<Sys>, events: seq<Event>, t: nat, b: Bundle, now: int)
    returns (states': seq<Sys>, events': seq<Event>)
    requires IsRun(states, events)
    requires var last := states[|events|];
             last.lock == None && Cleanup(last.file, now) == last.file && Admissible(last.file, b, last.capacity)
             && t in last.threads && last.threads[t] == Begins(OpSave(b))
    ensures Continues(states, events, states', events')
    ensures var last := states[|events|];
            states'[|events'|] == last.(threads := last.threads[
                                     t := Flushes(Write(last.file + [b], last.file, Commit(OpSave(b), now), None))])
  {
    var last := states[|events|];
    states', events' := Extend(states, events, Read(t, now));
    assert states'[|events'|] == last.(threads := last.threads[t := Cleans(b)]);
    states', events' := Extend(states', events', Read(t, now));
  }

  /** A write runs through: temporary file, then rename. */
  lemma {:induction false} WritesThrough(states: seq<Sys>, events: seq<Event>, t: nat, p: Write)
    returns (states': seq<Sys>, events': seq<Event>)
    requires IsRun(states, events)
    requires var last := states[|events|];
             last.lock == None && t in last.threads && last.threads[t] == Flushes(p)
    ensures Continues(states, events, states', events')
    ensures var last, last' := states[|events|], states'[|events'|];
            last' == Sys(last.capacity, p.mem, None, None, last.threads[t := AfterWrite(p, true, last.capacity)],
                         last.log + [p.commit], last.tidy && last.file == p.base)
  {
    var last := states[|events|];
    states', events' := Extend(states, events, Create(t, []));
    states', events' := Extend(states', events', Fill(t));
    assert states'[|events'|] == last.(lock := Some(t), temp := Some(p.mem), threads := last.threads[t := Renames(p)]);
    states', events' := Extend(states', events', Rename(t));
  }

  /** A save that finds something expired first writes what is left. */
  lemma {:induction false} CleansFirst(states: seq<Sys>, events: seq<Event>, t: nat, b: Bundle, now: int)
    returns (states': seq<Sys>, events': seq<Event>)
    requires IsRun(states, events)
    requires var last := states[|events|];
             last.lock == None && |Cleanup(last.file, now)| < |last.file|
             && Admissible(Cleanup(last.file, now), b, last.capacity)
             && t in last.threads && last.threads[t] == Begins(OpSave(b))
    ensures Continues(states, events, states', events')
    ensures var last, last' := states[|events|], states'[|events'|];
            var kept := Cleanup(last.file, now);
            && last'.file == kept && last'.lock == None && last'.capacity == last.capacity
            && last'.threads == last.threads[t := Flushes(Write(kept + [b], kept, Commit(OpSave(b), now), None))]
  {
    var last := states[|events|];
    var p := Write(Cleanup(last.file, now), last.file, Commit(OpCleanup, now), Some(b));
    states', events' := Extend(states, events, Read(t, now));
    assert states'[|events'|] == last.(threads := last.threads[t := Cleans(b)]);
    states', events' := Extend(states', events', Read(t, now));
    assert states'[|events'|] == last.(threads := last.threads[t := Flushes(p)]);
    states', events' := WritesThrough(states', events', t, p);
  }

  /** Either way the save gets ready to write behind the unexpired bundles. */
  lemma {:induction false} GetsReady(states: seq<Sys>, events: seq<Event>, t: nat, b: Bundle, now: int)
    returns (states': seq<Sys>, events': seq<Event>)
    requires IsRun(states, events)
    requires var last := states[|events|];
             last.lock == None && Admissible(Cleanup(last.file, now), b, last.capacity)
             && t in last.threads && last.threads[t] == Begins(OpSave(b))
    ensures Continues(states, events, states', events')
    ensures var last, last' := states[|events|], states'[|events'|];
            var kept := Cleanup(last.file, now);
            && last'.file == kept && last'.lock == None && last'.capacity == last.capacity
            && last'.threads == last.threads[t := Flushes(Write(kept + [b], kept, Commit(OpSave(b), now), None))]
  {
    CleanupFacts(states[|events|].file, now);
    if |Cleanup(states[|events|].file, now)| < |states[|events|].file| {
      states', events' := CleansFirst(states, events, t, b, now);
    } else {
      states', events' := ReadsReady(states, events, t, b, now);
    }
  }

  lemma {:induction false} BothReady(s: Sys, x: Bundle, y: Bundle, now: int)
    returns (states: seq<Sys>, events: seq<Event>)
    requires Initial(s)
    requires Admissible(Cleanup(s.file, now), x, s.capacity) && Admissible(Cleanup(s.file, now), y, s.capacity)
    ensures IsRun(states, events) && states[0] == s && NoReadFails(events)
    ensures var last, kept := states[|events|], Cleanup(s.file, now);
            && last.lock == None && last.file == kept
            && last.threads == map[0 := Flushes(Write(kept + [x], kept, Commit(OpSave(x), now), None)),
                                   1 := Flushes(Write(kept + [y], kept, Commit(OpSave(y), now), None))]
  {
    states, events := [s], [];
    states, events := Extend(states, events, Start(0, OpSave(x)));
    states, events := Extend(states, events, Start(1, OpSave(y)));
    states, events := GetsReady(states, events, 0, x, now);
    CleanupFacts(s.file, now);
    states, events := GetsReady(states, events, 1, y, now);
  }

  /** Two writes computed from the same file: the second undoes the first. */
  lemma {:induction false} LastWins(states: seq<Sys>, events: seq<Event>, kept: seq<Bundle>, x: Bundle, y: Bundle,
                                    now: int)
    returns (states': seq<Sys>, events': seq<Event>)
    requires IsRun(states, events) && !Has(kept, x.id) && x.id != y.id
    requires var last := states[|events|];
             && last.lock == None && last.file == kept
             && last.threads == map[0 := Flushes(Write(kept + [x], kept, Commit(OpSave(x), now), None)),
                                    1 := Flushes(Write(kept + [y], kept, Commit(OpSave(y), now), None))]
    ensures Continues(states, events, states', events')
    ensures var last := states'[|events'|];
            && last.threads == map[0 := Idle(Some(true)), 1 := Idle(Some(true))]
            && last.file == kept + [y] && !Has(last.file, x.id)
            && Commit(OpSave(x), now) in last.log && !last.tidy
  {
    states', events' := WritesThrough(states, events, 0, Write(kept + [x], kept, Commit(OpSave(x), now), None));
    states', events' := WritesThrough(states', events', 1, Write(kept + [y], kept, Commit(OpSave(y), now), None));
    assert (kept + [x])[|kept|] == x;
  }

  /** Whatever is in the file: two admissible saves computed from the same file both report success, and the bundle
      of the first is gone. */
  lemma {:induction false} UpdatesCanBeLost(s: Sys, x: Bundle, y: Bundle, now: int)
    returns (states: seq<Sys>, events: seq<Event>)
    requires Initial(s) && x.id != y.id
    requires Admissible(Cleanup(s.file, now), x, s.capacity) && Admissible(Cleanup(s.file, now), y, s.capacity)
    ensures IsRun(states, events) && states[0] == s
    ensures var last := states[|events|];
            && last.threads == map[0 := Idle(Some(true)), 1 := Idle(Some(true))]
            && last.file == Cleanup(s.file, now) + [y] && !Has(last.file, x.id)
            && Commit(OpSave(x), now) in last.log && !last.tidy
    ensures NoReadFails(events) && !Rereads(events)
  {
    states, events := BothReady(s, x, y, now);
    states, events := LastWins(states, events, Cleanup(s.file, now), x, y, now);
    if Rereads(events) {
      StaysCurrent(states, events, |events|);
    }
  }

  // ---- Reads that fail -----------------------------------------------------------------------

  /** A save whose reads fail takes the file for empty, reports success, and replaces everything by its one bundle. */
  lemma {:induction false} FailedReadLosesFile(s: Sys, b: Bundle, now: int)
    returns (states: seq<Sys>, events: seq<Event>)
    requires Initial(s) && s.capacity > 0
    ensures IsRun(states, events) && states[0] == s
    ensures states[|events|].file == [b] && states[|events|].threads == map[0 := Idle(Some(true))]
  {
    states, events := [s], [];
    states, events := Extend(states, events, Start(0, OpSave(b)));
    states, events := Extend(states, events, ReadFails(0, now));
    assert states[|events|] == s.(threads := map[0 := Cleans(b)]);
    states, events := Extend(states, events, ReadFails(0, now));
    assert [] + [b] == [b];
    states, events := WritesThrough(states, events, 0, Write([b], [], Commit(OpSave(b), now), None));
  }
}
