/** What every transaction on report jobs keeps. */
module JobSafety {
  import opened Common
  import opened ContractSchema
  import opened JobModel
  import opened JobLog
  import opened JobProtocol

  // ---- What no step takes back ----

  predicate SameRequest(a: Job, b: Job) {
    && a.version == b.version && a.data == b.data && a.dataHash == b.dataHash && a.requestedBy == b.requestedBy
    && a.profile == b.profile && a.parent == b.parent && a.key == b.key && a.born == b.born
  }

  /** Its request never changes, its log only grows, and once completed or failed nothing of it changes. */
  ghost predicate KeepsJob(db: Db, db': Db, j: Id) {
    IsJob(db, j) ==>
      && IsJob(db', j) && SameRequest(db.jobs[j], db'.jobs[j]) && db.log[j] <= db'.log[j]
      && (db.jobs[j].status in {Completed, Failed} ==> db'.jobs[j] == db.jobs[j] && db'.log[j] == db.log[j])
  }

  /** Published versions, recorded reports and their placements are there for good. */
  ghost predicate KeepsRecords(db: Db, db': Db) {
    && (forall v | v in db.published :: v in db'.published && db'.published[v] == db.published[v])
    && (forall j | j in db.objects :: j in db'.objects && db'.objects[j] == db.objects[j])
    && (forall p | p in db.placements :: p in db'.placements && db'.placements[p] == db.placements[p])
  }

  ghost predicate Keeps(db: Db, db': Db) {
    KeepsRecords(db, db') && forall j :: KeepsJob(db, db', j)
  }

  lemma KeepsTransitive(a: Db, b: Db, c: Db)
    requires Keeps(a, b) && Keeps(b, c)
    ensures Keeps(a, c)
  {
    forall j ensures KeepsJob(a, c, j) {
      assert KeepsJob(a, b, j) && KeepsJob(b, c, j);
    }
  }

  // ---- Transactions that leave the jobs alone ----

  ghost predicate SameJobs(db: Db, db': Db) {
    && db'.jobs == db.jobs && db'.log == db.log && db'.objects == db.objects && db'.placements == db.placements
    && db'.outbox.Keys <= db'.jobs.Keys
    && (forall v | v in db.published :: v in db'.published && db'.published[v] == db.published[v])
  }

  lemma SameJobsKeep(db: Db, db': Db)
    requires JobsInv(db) && SameJobs(db, db')
    ensures JobsInv(db') && Keeps(db, db')
  {
    SameJobsAgree(db, db');
    NothingMoves(db, db');
  }

  lemma NothingMoves(db: Db, db': Db)
    requires SameJobs(db, db')
    ensures Keeps(db, db')
  {}

  lemma SameJobsAgree(db: Db, db': Db)
    requires AllAgree(db) && SameJobs(db, db')
    ensures AllAgree(db')
  {
    forall j | j in db'.jobs ensures JobAgrees(db', j) {
      SameJobAgrees(db, db', j);
    }
  }

  lemma SameJobAgrees(db: Db, db': Db, j: Id)
    requires SameJobs(db, db') && j in db.jobs && JobAgrees(db, j)
    ensures JobAgrees(db', j)
  {}

  // ---- One job and its log ----

  /** The event takes the job from its old state to its new one, and keeps worker and lease together. */
  ghost predicate Moves(job: Job, next: Job, e: Event) {
    && SameRequest(job, next)
    && job.status !in {Completed, Failed}
    && After(StateOf(job), e) == StateOf(next)
    && (next.worker.Some? <==> next.lease.Some?)
    && (next.status != Completed ==> next.artifact == job.artifact)
  }

  lemma SameRequestsUnique(db: Db, db': Db)
    requires RetriesUnique(db) && db'.jobs.Keys == db.jobs.Keys
    requires forall k | k in db.jobs :: SameRequest(db.jobs[k], db'.jobs[k])
    ensures RetriesUnique(db')
  {
    forall j, k | j in db'.jobs && k in db'.jobs && SameRetry(db'.jobs[j], db'.jobs[k]) ensures j == k {
      assert SameRetry(db.jobs[j], db.jobs[k]);
    }
  }

  lemma MovedSelfAgrees(db: Db, j: Id, next: Job, e: Event)
    requires j in db.jobs && JobAgrees(db, j) && Moves(db.jobs[j], next, e) && next.status != Completed
    requires db.jobs[j].parent != Some(j)
    ensures JobAgrees(WithJob(db, j, next, e), j)
  {
    ReplayAppends(db.log[j], e);
    var db' := WithJob(db, j, next, e);
    assert db'.jobs.Keys == db.jobs.Keys;
    assert |db'.jobs| == |db'.jobs.Keys| == |db.jobs|;
  }

  lemma MovedKeeps(db: Db, db': Db, j: Id, e: Event)
    requires IsJob(db, j) && IsJob(db', j) && Moves(db.jobs[j], db'.jobs[j], e)
    requires db'.jobs == db.jobs[j := db'.jobs[j]] && db'.log == db.log[j := db.log[j] + [e]]
    requires KeepsRecords(db, db')
    ensures Keeps(db, db')
  {}

  lemma MovedTablesAgree(db: Db, db': Db, j: Id, e: Event)
    requires TablesAgree(db) && RetriesUnique(db) && IsJob(db, j) && IsJob(db', j)
    requires SameRequest(db.jobs[j], db'.jobs[j])
    requires db'.jobs == db.jobs[j := db'.jobs[j]] && db'.log == db.log[j := db.log[j] + [e]]
    requires db'.outbox == db.outbox
    requires db'.objects.Keys <= db'.jobs.Keys
    requires forall p | p in db'.placements :: p.job in db'.objects && db'.placements[p] == db'.objects[p.job]
    ensures TablesAgree(db') && RetriesUnique(db')
  {
    assert db'.jobs.Keys == db.jobs.Keys && db'.log.Keys == db.log.Keys;
    SameRequestsUnique(db, db');
  }

  lemma MovedJobAgrees(db: Db, j: Id, next: Job, e: Event)
    requires JobsInv(db) && IsJob(db, j) && Moves(db.jobs[j], next, e) && next.status != Completed
    ensures JobsInv(WithJob(db, j, next, e)) && Keeps(db, WithJob(db, j, next, e))
  {
    var db' := WithJob(db, j, next, e);
    MovedTablesAgree(db, db', j, e);
    MovedAllAgree(db, j, next, e);
    MovedKeeps(db, db', j, e);
  }

  lemma MovedAllAgree(db: Db, j: Id, next: Job, e: Event)
    requires AllAgree(db) && IsJob(db, j) && Moves(db.jobs[j], next, e) && next.status != Completed
    ensures AllAgree(WithJob(db, j, next, e))
  {
    var db' := WithJob(db, j, next, e);
    assert JobAgrees(db, j);
    MovedSelfAgrees(db, j, next, e);
    OthersAgree(db, db', j);
  }

  /** The other jobs still agree when one moves on: a job with a retry is failed, so it does not move. */
  lemma OthersAgree(db: Db, db': Db, j: Id)
    requires AllAgree(db) && IsJob(db, j) && db.jobs[j].status !in {Completed, Failed}
    requires j in db'.jobs && db'.jobs == db.jobs[j := db'.jobs[j]] && db'.published == db.published
    requires j in db'.log && db'.log == db.log[j := db'.log[j]] && db'.objects - {j} == db.objects - {j}
    ensures forall k | k in db.jobs && k != j :: JobAgrees(db', k)
  {
    forall k | k in db.jobs && k != j ensures JobAgrees(db', k) {
      OtherAgrees(db, db', j, k);
    }
  }

  lemma OtherAgrees(db: Db, db': Db, j: Id, k: Id)
    requires k in db.jobs && k != j && JobAgrees(db, k) && IsJob(db, j) && db.jobs[j].status !in {Completed, Failed}
    requires j in db'.jobs && db'.jobs == db.jobs[j := db'.jobs[j]] && db'.published == db.published
    requires j in db'.log && db'.log == db.log[j := db'.log[j]] && db'.objects - {j} == db.objects - {j}
    ensures JobAgrees(db', k)
  {
    assert db'.jobs.Keys == db.jobs.Keys;
    assert |db'.jobs| == |db'.jobs.Keys| == |db.jobs|;
    assert k in db.objects <==> k in db'.objects - {j};
    assert k in db.objects ==> db.objects[k] == (db'.objects - {j})[k];
  }

  lemma Stay(db: Db)
    ensures Keeps(db, db)
  {}

  function StartedJob(job: Job, worker: Id, until: real): Job {
    job.(status := Processing, attempts := job.attempts + 1, worker := Some(worker), lease := Some(until))
  }

  lemma StartMoves(db: Db, j: Id, worker: Id, until: real)
    requires j in db.jobs && LogAgrees(db, j) && ArtifactAgrees(db, j) && CanStart(db, j)
    ensures Moves(db.jobs[j], StartedJob(db.jobs[j], worker, until), Started(db.jobs[j].attempts + 1, worker))
  {}

  lemma StartKeeps(db: Db, j: Id, worker: Id, until: real)
    requires JobsInv(db)
    ensures JobsInv(Start(db, j, worker, until)) && Keeps(db, Start(db, j, worker, until))
  {
    if CanStart(db, j) {
      assert JobAgrees(db, j);
      StartMoves(db, j, worker, until);
      var next, e := StartedJob(db.jobs[j], worker, until), Started(db.jobs[j].attempts + 1, worker);
      assert Start(db, j, worker, until) == WithJob(db, j, next, e);
      MovedJobAgrees(db, j, next, e);
    } else {
      Stay(db);
    }
  }

  /** In replayed states a job has a worker exactly while it is processing. */
  lemma {:induction false} WorkersProcess(log: seq<Event>)
    ensures Replay(log).State? ==> (Replay(log).worker.Some? <==> Replay(log).status == Processing)
  {
    if log != [] { WorkersProcess(log[..|log| - 1]); }
  }

  function FinishedJob(job: Job, status: Status): Job {
    job.(status := status, worker := None, lease := None)
  }

  lemma FinishMoves(db: Db, j: Id, worker: Id, failed: bool)
    requires j in db.jobs && LogAgrees(db, j) && ArtifactAgrees(db, j) && HasWorker(db, j, worker)
    ensures Moves(db.jobs[j], FinishedJob(db.jobs[j], if failed then Failed else Queued),
                  if failed then GaveUp(db.jobs[j].attempts, worker) else Retried(db.jobs[j].attempts, worker))
  {
    WorkersProcess(db.log[j]);
  }

  lemma FinishKeeps(db: Db, j: Id, worker: Id, failed: bool)
    requires JobsInv(db)
    ensures JobsInv(Finish(db, j, worker, failed)) && Keeps(db, Finish(db, j, worker, failed))
  {
    if HasWorker(db, j, worker) {
      assert JobAgrees(db, j);
      FinishMoves(db, j, worker, failed);
      MovedJobAgrees(db, j, FinishedJob(db.jobs[j], if failed then Failed else Queued),
                     if failed then GaveUp(db.jobs[j].attempts, worker) else Retried(db.jobs[j].attempts, worker));
    } else {
      Stay(db);
    }
  }

  lemma RecoverMoves(db: Db, j: Id, actor: string, now: real)
    requires j in db.jobs && LogAgrees(db, j) && ArtifactAgrees(db, j) && CanRecover(db, j, now)
    ensures Moves(db.jobs[j], FinishedJob(db.jobs[j], Queued), Recovered(db.jobs[j].attempts, actor))
  {
    WorkersProcess(db.log[j]);
  }

  lemma RecoverKeeps(db: Db, j: Id, actor: string, now: real, at: real)
    requires JobsInv(db)
    ensures JobsInv(Recover(db, j, actor, now, at)) && Keeps(db, Recover(db, j, actor, now, at))
  {
    if CanRecover(db, j, now) {
      RearmKeeps(db, j, at);
      assert JobAgrees(db, j);
      RecoverMoves(db, j, actor, now);
      MovedJobAgrees(Rearm(db, j, at), j, FinishedJob(db.jobs[j], Queued), Recovered(db.jobs[j].attempts, actor));
      KeepsTransitive(db, Rearm(db, j, at), Recover(db, j, actor, now, at));
    } else {
      Stay(db);
    }
  }

  lemma RearmKeeps(db: Db, j: Id, at: real)
    requires JobsInv(db) && IsJob(db, j)
    ensures JobsInv(Rearm(db, j, at)) && Keeps(db, Rearm(db, j, at))
  {
    SameJobsKeep(db, Rearm(db, j, at));
  }

  // ---- Delivering ----

  predicate Delivers(db: Db, j: Id, worker: Id, report: StoredReport) {
    CanDeliver(db, j, worker) && KeyIsFree(db, j, report.key)
  }

  lemma DeliveredSelfAgrees(db: Db, j: Id, worker: Id, profile: Id, report: StoredReport)
    requires j in db.jobs && JobAgrees(db, j) && Delivers(db, j, worker, report)
    requires db.jobs[j].parent != Some(j)
    ensures JobAgrees(Deliver(db, j, worker, profile, report), j)
  {
    var db' := Deliver(db, j, worker, profile, report);
    ReplayAppends(db.log[j], Delivered(db.jobs[j].attempts, worker));
    assert db'.jobs.Keys == db.jobs.Keys;
    assert |db'.jobs| == |db'.jobs.Keys| == |db.jobs|;
  }

  lemma DeliveredAllAgree(db: Db, j: Id, worker: Id, profile: Id, report: StoredReport)
    requires AllAgree(db) && Delivers(db, j, worker, report)
    ensures AllAgree(Deliver(db, j, worker, profile, report))
  {
    assert JobAgrees(db, j);
    DeliveredSelfAgrees(db, j, worker, profile, report);
    var db' := Deliver(db, j, worker, profile, report);
    assert db'.objects - {j} == db.objects - {j};
    OthersAgree(db, db', j);
  }

  lemma DeliverKeepsRecords(db: Db, j: Id, worker: Id, profile: Id, report: StoredReport)
    requires TablesAgree(db) && Delivers(db, j, worker, report) && j !in db.objects
    ensures KeepsRecords(db, Deliver(db, j, worker, profile, report))
    ensures TablesAgree(Deliver(db, j, worker, profile, report))
  {}

  lemma DeliverMoves(db: Db, j: Id, worker: Id, profile: Id, report: StoredReport)
    requires j in db.jobs && LogAgrees(db, j) && Delivers(db, j, worker, report)
    ensures IsJob(Deliver(db, j, worker, profile, report), j)
    ensures Moves(db.jobs[j], Deliver(db, j, worker, profile, report).jobs[j], Delivered(db.jobs[j].attempts, worker))
  {}

  lemma DeliverKeeps(db: Db, j: Id, worker: Id, profile: Id, report: StoredReport)
    requires JobsInv(db)
    ensures JobsInv(Deliver(db, j, worker, profile, report)) && Keeps(db, Deliver(db, j, worker, profile, report))
  {
    if Delivers(db, j, worker, report) {
      var db' := Deliver(db, j, worker, profile, report);
      assert JobAgrees(db, j);
      DeliverKeepsRecords(db, j, worker, profile, report);
      DeliverMoves(db, j, worker, profile, report);
      DeliveredAllAgree(db, j, worker, profile, report);
      MovedKeeps(db, db', j, Delivered(db.jobs[j].attempts, worker));
      MovedTablesAgree(db, db', j, Delivered(db.jobs[j].attempts, worker));
    } else {
      Stay(db);
    }
  }

  // ---- New jobs ----

  /** A new job is nobody's parent, agrees with its parent if it has one, and repeats no retry. */
  ghost predicate FitsIn(db: Db, id: Id, job: Job) {
    && id !in db.jobs
    && job == NewJob(db, job.version, job.data, job.dataHash, job.requestedBy, job.profile, job.parent, job.key)
    && job.version in db.published && Conforms(db.published[job.version].schema, job.data)
    && (job.key.Some? ==> job.parent.Some?)
    && (job.parent.Some? ==>
          && MayRetry(db, job.parent.value)
          && var parent := db.jobs[job.parent.value];
             parent.born < |db.jobs| && parent.version == job.version && parent.data == job.data
                 && parent.dataHash == job.dataHash)
    && (forall k | k in db.jobs :: !SameRetry(db.jobs[k], job))
  }

  lemma InsertedSelfAgrees(db: Db, id: Id, job: Job, now: real)
    requires FitsIn(db, id, job) && id !in db.objects
    ensures JobAgrees(Insert(db, id, job, now), id)
  {
    OneMoreJob(db, id, job, now);
  }

  lemma OneMoreJob(db: Db, id: Id, job: Job, now: real)
    requires id !in db.jobs
    ensures |Insert(db, id, job, now).jobs| == |db.jobs| + 1
  {
    var db' := Insert(db, id, job, now);
    assert db'.jobs.Keys == db.jobs.Keys + {id};
    assert |db'.jobs| == |db'.jobs.Keys|;
  }

  lemma InsertedOtherAgrees(db: Db, id: Id, job: Job, now: real, k: Id)
    requires id !in db.jobs && k in db.jobs && JobAgrees(db, k)
    ensures JobAgrees(Insert(db, id, job, now), k)
  {
    OneMoreJob(db, id, job, now);
  }

  lemma InsertKeepsUnique(db: Db, id: Id, job: Job, now: real)
    requires RetriesUnique(db) && FitsIn(db, id, job)
    ensures RetriesUnique(Insert(db, id, job, now))
  {
    var db' := Insert(db, id, job, now);
    forall j, k | j in db'.jobs && k in db'.jobs && SameRetry(db'.jobs[j], db'.jobs[k]) ensures j == k {
      if j != id && k != id { assert SameRetry(db.jobs[j], db.jobs[k]); }
    }
  }

  lemma InsertKeepsAllAgree(db: Db, id: Id, job: Job, now: real)
    requires AllAgree(db) && TablesAgree(db) && FitsIn(db, id, job)
    ensures AllAgree(Insert(db, id, job, now))
  {
    var db' := Insert(db, id, job, now);
    forall k | k in db'.jobs ensures JobAgrees(db', k) {
      if k == id { InsertedSelfAgrees(db, id, job, now); } else { InsertedOtherAgrees(db, id, job, now, k); }
    }
  }

  lemma InsertKeepsTables(db: Db, id: Id, job: Job, now: real)
    requires TablesAgree(db) && id !in db.jobs
    ensures TablesAgree(Insert(db, id, job, now)) && Keeps(db, Insert(db, id, job, now))
  {}

  lemma InsertKeeps(db: Db, id: Id, job: Job, now: real)
    requires JobsInv(db) && FitsIn(db, id, job)
    ensures JobsInv(Insert(db, id, job, now)) && Keeps(db, Insert(db, id, job, now))
  {
    InsertKeepsTables(db, id, job, now);
    InsertKeepsAllAgree(db, id, job, now);
    InsertKeepsUnique(db, id, job, now);
  }

  lemma CreateKeeps(db: Db, q: Request, v: VersionId, now: real)
    requires JobsInv(db) && db.defaultProfile.Some? && q.id !in db.jobs
    requires v in db.published && Conforms(db.published[v].schema, q.data)
    ensures JobsInv(CreateFrom(db, q, v, now)) && Keeps(db, CreateFrom(db, q, v, now))
  {
    InsertKeeps(db, q.id,
                NewJob(db, v, q.data, q.dataHash, NonEmpty(q.requestedBy), db.defaultProfile.value, None, None), now);
  }

  lemma RetryKeeps(db: Db, parent: Id, id: Id, actor: string, key: string, now: real)
    requires JobsInv(db) && MayRetry(db, parent) && CanCopy(db, parent, id, key)
    requires key != "" ==> forall k :: !IsRetryOf(db, k, parent, actor, key)
    ensures JobsInv(RetryFrom(db, parent, id, actor, key, now)) && Keeps(db, RetryFrom(db, parent, id, actor, key, now))
  {
    var failed := db.jobs[parent];
    assert JobAgrees(db, parent);
    var job := NewJob(db, failed.version, failed.data, failed.dataHash, Some(actor), db.defaultProfile.value,
                      Some(parent), NonEmpty(key));
    forall k | k in db.jobs ensures !SameRetry(db.jobs[k], job) {
      assert key != "" ==> !IsRetryOf(db, k, parent, actor, key);
    }
    InsertKeeps(db, id, job, now);
  }

  // ---- Every step ----

  lemma StepKeepsJobs(w: World, a: Action)
    requires JobsInv(w.db) && Enabled(w, a)
    ensures JobsInv(Apply(w, a).db) && Keeps(w.db, Apply(w, a).db)
  {
    match a {
      case CreateJob(q, v, now) => CreateKeeps(w.db, q, v, now);
      case RetryJob(parent, id, actor, key, now) => RetryKeeps(w.db, parent, id, actor, key, now);
      case StartJob(j, worker, until) => StartKeeps(w.db, j, worker, until);
      case FinishJob(j, worker, failed) => FinishKeeps(w.db, j, worker, failed);
      case DeliverJob(j, worker, profile, report) => DeliverKeeps(w.db, j, worker, profile, report);
      case RecoverJob(j, actor, now, at) =>
        if CanRecover(w.db, j, now) { RecoverKeeps(w.db, j, actor, now, at); } else { Stay(w.db); }
      case _ => SameJobsKeep(w.db, Apply(w, a).db);
    }
  }
}
