/** When a completed report stays readable, and what a delivery that outlived its lease can do. */
module JobDeliveryRuns {
  import opened Common
  import opened JobModel
  import opened JobProtocol
  import opened JobSafety
  import opened JobDeliveries
  import opened JobDeliverySafety
  import R = JobRuns

  lemma InitialSiteHolds(owner: Owner, hash: Hash, s: Site)
    requires InitialSite(s)
    ensures SiteInv(owner, hash, s)
  {
    R.ReachableHolds([s.world], [], 0);
  }

  /** Whatever deliveries do, in any interleaving, keeps the invariants. */
  lemma {:induction false} MovesKeepInv(owner: Owner, hash: Hash, before: Site, moves: seq<Move>, after: Site)
    requires SiteInv(owner, hash, before) && MovesTo(owner, hash, before, moves, after)
    ensures SiteInv(owner, hash, after)
    decreases |moves|
  {
    if moves != [] {
      assert MovesFrom(owner, hash, before, moves, after);
      MoveKeepsInv(owner, hash, before, moves[0]);
      MovesKeepInv(owner, hash, Moved(hash, before, moves[0]), moves[1..], after);
    }
  }

  // ---- Completed reports ----

  predicate IsDone(s: Site, j: Id) {
    j in s.world.db.jobs && s.world.db.jobs[j].status == Completed
  }

  /** With nobody left to store, a completed report stays intact for ever. */
  lemma {:induction false} StaysIntact(owner: Owner, hash: Hash, before: Site, moves: seq<Move>, after: Site, j: Id)
    requires SiteInv(owner, hash, before) && MovesTo(owner, hash, before, moves, after)
    requires IsDone(before, j) && IsIntact(hash, before, j) && !IsPending(before, j)
    ensures IsDone(after, j) && IsIntact(hash, after, j)
    decreases |moves|
  {
    if moves != [] {
      assert MovesFrom(owner, hash, before, moves, after);
      DoneStaysIntact(owner, hash, before, moves[0], j);
      MoveKeepsInv(owner, hash, before, moves[0]);
      StaysIntact(owner, hash, Moved(hash, before, moves[0]), moves[1..], after, j);
    }
  }

  /** A delivery that is still to store can ruin the report with one move. */
  lemma PendingCanRuin(owner: Owner, hash: Hash, s: Site, j: Id, profile: Id, late: Bytes) returns (m: Move)
    requires SiteInv(owner, hash, s) && IsDone(s, j) && IsPending(s, j)
    requires j in s.world.db.objects && ReportAt(j, profile) in s.world.db.placements
    requires hash(late) != s.world.db.objects[j].digest
    ensures MayMove(owner, s, m) && MovesTo(owner, hash, s, [m], Moved(hash, s, m))
    ensures !IsIntact(hash, Moved(hash, s, m), j)
  {
    var d :| d in s.deliveries && s.deliveries[d].job == j && s.deliveries[d].put.None?;
    var slot := Slot(profile, s.world.db.objects[j].key);
    m := Put(d, Rendering(slot, late));
    var moves, after := TakeMove(owner, hash, s, [], s, m);
    assert moves == [m];
    assert !IsIntactAt(hash, after, j, profile);
  }

  ghost predicate StaysReadable(owner: Owner, hash: Hash, s: Site, j: Id) {
    forall moves, after | MovesTo(owner, hash, s, moves, after) :: IsIntact(hash, after, j)
  }

  /**
   A completed report that is intact can be read for ever, whatever else happens, if and
   only if no delivery of the job is still to store. Nothing in the protocol waits for that.
   */
  lemma ReadableForEverExactlyWhen(owner: Owner, hash: Hash, s: Site, j: Id, profile: Id, late: Bytes)
    requires SiteInv(owner, hash, s) && IsDone(s, j) && IsIntact(hash, s, j)
    requires ReportAt(j, profile) in s.world.db.placements && hash(late) != s.world.db.objects[j].digest
    ensures StaysReadable(owner, hash, s, j) <==> !IsPending(s, j)
  {
    if IsPending(s, j) {
      var m := PendingCanRuin(owner, hash, s, j, profile, late);
      assert MovesTo(owner, hash, s, [m], Moved(hash, s, m));
    } else {
      forall moves, after | MovesTo(owner, hash, s, moves, after) ensures IsIntact(hash, after, j) {
        StaysIntact(owner, hash, s, moves, after, j);
      }
    }
  }

  /** A report completed by the job's only attempt is intact from then on. */
  lemma SingleAttemptIsReadable(owner: Owner, hash: Hash, first: Site, moves: seq<Move>, s: Site, j: Id)
    requires InitialSite(first) && MovesTo(owner, hash, first, moves, s)
    requires IsDone(s, j) && s.world.db.jobs[j].attempts == 1
    ensures IsIntact(hash, s, j) && StaysReadable(owner, hash, s, j)
  {
    InitialSiteHolds(owner, hash, first);
    MovesKeepInv(owner, hash, first, moves, s);
    assert OnceDone(s, j);
    assert IsPending(s, j) ==> AnyoneOn(s, j);
    forall more, after | MovesTo(owner, hash, s, more, after) ensures IsIntact(hash, after, j) {
      StaysIntact(owner, hash, s, more, after, j);
    }
  }

  // ---- Runs that go wrong ----

  /** The delivery of an attempt whose lease ran out, and the delivery of the attempt that replaced it. */
  lemma Superseded(owner: Owner, hash: Hash, s: Site, j: Id, d: Id, e: Id, worker: Id, other: Id, actor: string)
    returns (moves: seq<Move>, after: Site)
    requires CanStart(s.world.db, j) && d != e && d !in s.deliveries && e !in s.deliveries
    requires worker !in s.world.db.heartbeats
    ensures moves == [Begin(d, j, worker, 1.0), Other(RecoverJob(j, actor, 2.0, 2.0)), Begin(e, j, other, 3.0)]
    ensures MovesTo(owner, hash, s, moves, after)
    ensures var k := s.world.db.jobs[j].attempts;
            && d in after.deliveries && after.deliveries[d] == Delivery(j, worker, k + 1, None)
            && e in after.deliveries && after.deliveries[e] == Delivery(j, other, k + 2, None)
            && IsHeld(after.world.db, j, other, k + 2)
    ensures after.world.db.objects == s.world.db.objects
  {
    var recovered;
    moves, recovered := Lost(owner, hash, s, j, d, worker, actor);
    BeginDoes(hash, recovered, e, j, other, 3.0);
    moves, after := TakeMove(owner, hash, s, moves, recovered, Begin(e, j, other, 3.0));
  }

  /** A delivery begins an attempt, and the operator takes the job away again when the lease has run out. */
  lemma Lost(owner: Owner, hash: Hash, s: Site, j: Id, d: Id, worker: Id, actor: string)
    returns (moves: seq<Move>, after: Site)
    requires CanStart(s.world.db, j) && d !in s.deliveries && worker !in s.world.db.heartbeats
    ensures moves == [Begin(d, j, worker, 1.0), Other(RecoverJob(j, actor, 2.0, 2.0))]
    ensures MovesTo(owner, hash, s, moves, after)
    ensures after.deliveries == s.deliveries[d := Delivery(j, worker, s.world.db.jobs[j].attempts + 1, None)]
    ensures CanStart(after.world.db, j) && after.world.db.jobs[j].attempts == s.world.db.jobs[j].attempts + 1
    ensures after.world.db.objects == s.world.db.objects
  {
    var begun;
    BeginDoes(hash, s, d, j, worker, 1.0);
    moves, begun := TakeMove(owner, hash, s, [], s, Begin(d, j, worker, 1.0));
    var recover := Other(RecoverJob(j, actor, 2.0, 2.0));
    RecoverDoes(hash, begun, j, actor);
    moves, after := TakeMove(owner, hash, s, moves, begun, recover);
  }

  lemma BeginDoes(hash: Hash, s: Site, d: Id, j: Id, worker: Id, until: real)
    requires CanStart(s.world.db, j)
    ensures var s', k := Moved(hash, s, Begin(d, j, worker, until)), s.world.db.jobs[j].attempts + 1;
            && s'.deliveries == s.deliveries[d := Delivery(j, worker, k, None)]
            && IsHeld(s'.world.db, j, worker, k) && s'.world.db.jobs[j].lease == Some(until)
            && s'.world.db.objects == s.world.db.objects && s'.world.db.heartbeats == s.world.db.heartbeats
  {}

  lemma RecoverDoes(hash: Hash, s: Site, j: Id, actor: string)
    requires CanRecover(s.world.db, j, 2.0)
    ensures var s' := Moved(hash, s, Other(RecoverJob(j, actor, 2.0, 2.0)));
            && s'.deliveries == s.deliveries && CanStart(s'.world.db, j)
            && s'.world.db.jobs[j].attempts == s.world.db.jobs[j].attempts && s'.world.db.objects == s.world.db.objects
  {}

  ghost predicate IsHeld(db: Db, j: Id, worker: Id, attempt: nat) {
    CanDeliver(db, j, worker) && db.jobs[j].attempts == attempt
  }

  /** A delivery stores and records, while its worker holds the job. */
  lemma StoresAndRecords(owner: Owner, hash: Hash, before: Site, soFar: seq<Move>, s: Site, d: Id, r: Rendering)
    returns (moves: seq<Move>, after: Site)
    requires MovesTo(owner, hash, before, soFar, s)
    requires d in s.deliveries && s.deliveries[d].put.None? && owner(r.slot.key) == s.deliveries[d].job
    requires CanDeliver(s.world.db, s.deliveries[d].job, s.deliveries[d].worker)
    requires KeyIsFree(s.world.db, s.deliveries[d].job, r.slot.key)
    ensures moves == soFar + [Put(d, r), Record(d)] && MovesTo(owner, hash, before, moves, after)
    ensures after.deliveries == s.deliveries - {d} && after.stores == s.stores[r.slot := r.contents]
    ensures var j, db := s.deliveries[d].job, after.world.db;
            && IsDone(after, j) && j in db.objects && db.objects[j] == ReportOf(hash, r)
            && ReportAt(j, r.slot.profile) in db.placements
            && j in db.log && j in s.world.db.log
            && db.log[j] == s.world.db.log[j] + [Delivered(s.world.db.jobs[j].attempts, s.deliveries[d].worker)]
  {
    var stored;
    moves, stored := TakeMove(owner, hash, before, soFar, s, Put(d, r));
    RecordingDoes(hash, stored, d);
    moves, after := TakeMove(owner, hash, before, moves, stored, Record(d));
  }

  /**
   A late store: the attempt that was replaced still stores after its successor has
   completed the job, under the same key, and the report cannot be read any more.
   */
  lemma LateStoreRuinsReport(owner: Owner, hash: Hash, s: Site, j: Id, d: Id, e: Id, worker: Id, other: Id,
                             actor: string,
                             slot: Slot, contents: Bytes, late: Bytes) returns (moves: seq<Move>, end: Site)
    requires SiteInv(owner, hash, s) && CanStart(s.world.db, j) && d != e && d !in s.deliveries && e !in s.deliveries
    requires worker !in s.world.db.heartbeats && owner(slot.key) == j && hash(late) != hash(contents)
    ensures MovesTo(owner, hash, s, moves, end)
    ensures moves == [Begin(d, j, worker, 1.0), Other(RecoverJob(j, actor, 2.0, 2.0)), Begin(e, j, other, 3.0)]
                     + [Put(e, Rendering(slot, contents)), Record(e)] + [Put(d, Rendering(slot, late))]
    ensures IsDone(end, j) && j in end.world.db.objects && end.world.db.objects[j].digest == hash(contents)
    ensures !IsIntact(hash, end, j)
  {
    var start, replaced := Superseded(owner, hash, s, j, d, e, worker, other, actor);
    NobodyHasKey(owner, hash, s, start, replaced, j, slot.key);
    var r := Rendering(slot, contents);
    var upToRecord, done := StoresAndRecords(owner, hash, s, start, replaced, e, r);
    moves, end := TakeMove(owner, hash, s, upToRecord, done, Put(d, Rendering(slot, late)));
    assert !IsIntactAt(hash, end, j, slot.profile);
  }

  lemma NobodyHasKey(owner: Owner, hash: Hash, s: Site, moves: seq<Move>, after: Site, j: Id, key: string)
    requires SiteInv(owner, hash, s) && MovesTo(owner, hash, s, moves, after) && owner(key) == j
    ensures KeyIsFree(after.world.db, j, key)
  {
    MovesKeepInv(owner, hash, s, moves, after);
  }

  /**
   A stale completion: the worker's delivery for an attempt that was recovered completes
   the attempt that replaced it, with what it rendered itself, because the same worker
   has taken the job again.
   */
  lemma StaleDeliveryCompletesNewerAttempt(owner: Owner, hash: Hash, s: Site, j: Id, d: Id, e: Id, worker: Id,
                                           actor: string,
                                           r: Rendering) returns (moves: seq<Move>, end: Site)
    requires SiteInv(owner, hash, s) && CanStart(s.world.db, j) && d != e && d !in s.deliveries && e !in s.deliveries
    requires worker !in s.world.db.heartbeats && owner(r.slot.key) == j
    ensures MovesTo(owner, hash, s, moves, end)
    ensures moves == [Begin(d, j, worker, 1.0), Other(RecoverJob(j, actor, 2.0, 2.0)), Begin(e, j, worker, 3.0)]
                     + [Put(d, r), Record(d)]
    ensures IsDone(end, j) && j in end.world.db.objects && end.world.db.objects[j] == ReportOf(hash, r)
    ensures j in end.world.db.log && end.world.db.log[j] != []
    ensures end.world.db.log[j][|end.world.db.log[j]| - 1] == Delivered(s.world.db.jobs[j].attempts + 2, worker)
  {
    var start, replaced := Superseded(owner, hash, s, j, d, e, worker, worker, actor);
    NobodyHasKey(owner, hash, s, start, replaced, j, r.slot.key);
    moves, end := StoresAndRecords(owner, hash, s, start, replaced, d, r);
  }

  /** Recording closes another attempt than the delivery's own exactly when its worker has taken the job again since. */
  lemma RecordsOtherAttemptExactlyWhen(owner: Owner, hash: Hash, s: Site, d: Id)
    requires SiteInv(owner, hash, s) && d in s.deliveries && s.deliveries[d].put.Some?
    ensures var del, db := s.deliveries[d], s.world.db;
            && del.job in db.jobs
            && (R.ClosedAttempt(db, Moved(hash, s, Record(d)).world.db, del.job) in {None, Some(del.attempt)} <==>
                !(db.jobs[del.job].worker == Some(del.worker) && db.jobs[del.job].attempts > del.attempt))
  {
    var del, db := s.deliveries[d], s.world.db;
    assert DeliveryAgrees(owner, s, del);
    HolderProcesses(db, del.job);
    KeyIsOwn(owner, db, del.job, del.put.value.slot.key);
    RecordingCloses(hash, s, d);
  }

  lemma HolderProcesses(db: Db, j: Id)
    requires JobsInv(db) && j in db.jobs
    ensures db.jobs[j].worker.Some? <==> db.jobs[j].status == Processing
  {
    assert JobAgrees(db, j);
    WorkersProcess(db.log[j]);
  }

  lemma KeyIsOwn(owner: Owner, db: Db, j: Id, key: string)
    requires KeysAgree(owner, db) && owner(key) == j
    ensures KeyIsFree(db, j, key)
  {}

  /** Recording closes the current attempt, or nothing if the worker does not hold the job. */
  lemma RecordingCloses(hash: Hash, s: Site, d: Id)
    requires d in s.deliveries && s.deliveries[d].put.Some? && IsJob(s.world.db, s.deliveries[d].job)
    requires KeyIsFree(s.world.db, s.deliveries[d].job, s.deliveries[d].put.value.slot.key)
    ensures var del, db := s.deliveries[d], s.world.db;
            R.ClosedAttempt(db, Moved(hash, s, Record(d)).world.db, del.job)
            == if CanDeliver(db, del.job, del.worker) then Some(db.jobs[del.job].attempts) else None
  {
    RecordingDoes(hash, s, d);
  }
}
