/** What holds over whole histories of report jobs. */
module JobRuns {
  import opened Common
  import opened ContractSchema
  import opened JobModel
  import opened JobLog
  import opened JobProtocol
  import opened JobSafety
  import opened JobHandoff

  /** So a dispatcher or a worker that starts where the invariants hold keeps them. */
  lemma {:induction false} RunKeepsInvariants(before: World, actions: seq<Action>, after: World)
    requires JobsInv(before.db) && HandoffInv(before) && Leads(before, actions, after)
    ensures JobsInv(after.db) && HandoffInv(after) && Keeps(before.db, after.db)
    decreases |actions|
  {
    if actions == [] {
      Stay(before.db);
    } else {
      assert LeadsFrom(before, actions, after);
      var next := Apply(before, actions[0]);
      StepKeepsJobs(before, actions[0]);
      StepKeepsHandoff(before, actions[0]);
      RunKeepsInvariants(next, actions[1..], after);
      KeepsTransitive(before.db, next.db, after.db);
    }
  }

  lemma {:induction false} ReachableHolds(worlds: seq<World>, actions: seq<Action>, n: nat)
    requires Trace(worlds, actions) && n < |worlds|
    ensures JobsInv(worlds[n].db) && HandoffInv(worlds[n])
  {
    if n > 0 {
      ReachableHolds(worlds, actions, n - 1);
      assert StepAt(worlds, actions, n - 1);
      StepKeepsJobs(worlds[n - 1], actions[n - 1]);
      StepKeepsHandoff(worlds[n - 1], actions[n - 1]);
    }
  }

  lemma {:induction false} ChainKeeps(dbs: seq<Db>)
    requires dbs != [] && forall k | 0 < k < |dbs| :: Keeps(dbs[k - 1], dbs[k])
    ensures Keeps(dbs[0], dbs[|dbs| - 1])
  {
    if |dbs| == 1 {
      Stay(dbs[0]);
    } else {
      ChainKeeps(dbs[..|dbs| - 1]);
      KeepsTransitive(dbs[0], dbs[|dbs| - 2], dbs[|dbs| - 1]);
    }
  }

  /** Requests never change, logs only grow, finished jobs and recorded reports stay as they are. */
  lemma JobsAreKept(worlds: seq<World>, actions: seq<Action>, n: nat, later: nat)
    requires Trace(worlds, actions) && n <= later < |worlds|
    ensures Keeps(worlds[n].db, worlds[later].db)
  {
    var dbs := seq(later - n + 1, k requires 0 <= k <= later - n => worlds[n + k].db);
    forall k | 0 < k < |dbs| ensures Keeps(dbs[k - 1], dbs[k]) {
      ReachableHolds(worlds, actions, n + k - 1);
      assert StepAt(worlds, actions, n + k - 1);
      StepKeepsJobs(worlds[n + k - 1], actions[n + k - 1]);
    }
    ChainKeeps(dbs);
  }

  // ---- Attempts ----

  /**
   The log of every job is a story of attempts 1, 2, 3, each closed at most once and by
   its own worker or by recovery; the job's status, attempts and worker are its ending.
   */
  lemma LogsTellTheStory(worlds: seq<World>, actions: seq<Action>, n: nat, j: Id)
    requires Trace(worlds, actions) && n < |worlds| && j in worlds[n].db.jobs
    ensures j in worlds[n].db.log && IsStory(worlds[n].db.log[j])
    ensures var job, log := worlds[n].db.jobs[j], worlds[n].db.log[j];
            && job.status == Ending(log) && job.worker == StoryWorker(log) && job.attempts == (|log| + 1) / 2
  {
    ReachableHolds(worlds, actions, n);
    assert JobAgrees(worlds[n].db, j);
    ReplayedIsStory(worlds[n].db.log[j]);
  }

  /** A job is processing exactly while it has a worker, and exactly while it has a lease. */
  lemma ProcessingMeansHeld(worlds: seq<World>, actions: seq<Action>, n: nat, j: Id)
    requires Trace(worlds, actions) && n < |worlds| && j in worlds[n].db.jobs
    ensures worlds[n].db.jobs[j].status == Processing <==> worlds[n].db.jobs[j].worker.Some?
    ensures worlds[n].db.jobs[j].status == Processing <==> worlds[n].db.jobs[j].lease.Some?
  {
    ReachableHolds(worlds, actions, n);
    assert JobAgrees(worlds[n].db, j);
    WorkersProcess(worlds[n].db.log[j]);
  }

  /** Completed and failed are for ever, and so are the report recorded and the log behind it. */
  lemma FinishedIsFinal(worlds: seq<World>, actions: seq<Action>, n: nat, later: nat, j: Id)
    requires Trace(worlds, actions) && n <= later < |worlds| && j in worlds[n].db.jobs
    requires worlds[n].db.jobs[j].status in {Completed, Failed}
    ensures j in worlds[later].db.jobs && worlds[later].db.jobs[j] == worlds[n].db.jobs[j]
    ensures j in worlds[n].db.objects <==> j in worlds[later].db.objects
    ensures j in worlds[n].db.objects ==> worlds[later].db.objects[j] == worlds[n].db.objects[j]
  {
    ReachableHolds(worlds, actions, n);
    ReachableHolds(worlds, actions, later);
    JobsAreKept(worlds, actions, n, later);
    assert JobAgrees(worlds[n].db, j);
    assert KeepsJob(worlds[n].db, worlds[later].db, j);
    assert JobAgrees(worlds[later].db, j);
  }

  /** The job, its log, its report and the report's placements are as they were. */
  ghost predicate Untouched(db: Db, db': Db, j: Id) {
    && (j in db.jobs <==> j in db'.jobs) && (j in db.jobs ==> db'.jobs[j] == db.jobs[j])
    && (j in db.log <==> j in db'.log) && (j in db.log ==> db'.log[j] == db.log[j])
    && (j in db.objects <==> j in db'.objects) && (j in db.objects ==> db'.objects[j] == db.objects[j])
    && (forall profile :: SamePlacement(db, db', ReportAt(j, profile)))
  }

  ghost predicate SamePlacement(db: Db, db': Db, p: ReportAt) {
    (p in db.placements <==> p in db'.placements) && (p in db.placements ==> db'.placements[p] == db.placements[p])
  }

  /** A start of a queued job, a recovery of one whose lease ran out, or a call by its current worker. */
  predicate MayChange(db: Db, a: Action, j: Id)
    requires j in db.jobs
  {
    match a
    case StartJob(k, _, _) => k == j && db.jobs[j].status == Queued
    case RecoverJob(k, _, now, _) => k == j && CanRecover(db, j, now)
    case FinishJob(k, worker, _) => k == j && db.jobs[j].worker == Some(worker)
    case DeliverJob(k, worker, _, _) => k == j && db.jobs[j].worker == Some(worker)
    case _ => false
  }

  /** Nothing else changes a job: a worker that lost it, or never had it, leaves no trace. */
  lemma OnlyTheHolderFinishes(worlds: seq<World>, actions: seq<Action>, n: nat, j: Id)
    requires Trace(worlds, actions) && n < |actions| && j in worlds[n].db.jobs
    requires !MayChange(worlds[n].db, actions[n], j)
    ensures Untouched(worlds[n].db, worlds[n + 1].db, j)
  {
    ReachableHolds(worlds, actions, n);
    assert StepAt(worlds, actions, n);
    assert JobAgrees(worlds[n].db, j);
    OnlyTheHolderActs(worlds[n], actions[n], j);
  }

  lemma OnlyTheHolderActs(w: World, a: Action, j: Id)
    requires IsJob(w.db, j) && Enabled(w, a) && !MayChange(w.db, a, j)
    ensures Untouched(w.db, Apply(w, a).db, j)
  {
    if a.CreateJob? || a.RetryJob? {
      CreationsLeave(w, a, j);
    } else if a.StartJob? || a.FinishJob? || a.DeliverJob? || a.RecoverJob? {
      AttemptsLeave(w, a, j);
    } else {
      OthersLeave(w, a, j);
    }
  }

  lemma OthersLeave(w: World, a: Action, j: Id)
    requires !a.CreateJob? && !a.RetryJob? && !a.StartJob? && !a.FinishJob? && !a.DeliverJob? && !a.RecoverJob?
    ensures Untouched(w.db, Apply(w, a).db, j)
  {}

  lemma CreationsLeave(w: World, a: Action, j: Id)
    requires IsJob(w.db, j) && Enabled(w, a) && (a.CreateJob? || a.RetryJob?)
    ensures Untouched(w.db, Apply(w, a).db, j)
  {
    if a.CreateJob? {
      InsertLeavesOthers(w.db, a.request.id, CreateFrom(w.db, a.request, a.version, a.now).jobs[a.request.id],
                         a.now, j);
    } else {
      InsertLeavesOthers(w.db, a.id, RetryFrom(w.db, a.parent, a.id, a.actor, a.key, a.now).jobs[a.id], a.now, j);
    }
  }

  lemma AttemptsLeave(w: World, a: Action, j: Id)
    requires IsJob(w.db, j) && !MayChange(w.db, a, j) && (a.StartJob? || a.FinishJob? || a.DeliverJob? || a.RecoverJob?)
    ensures Untouched(w.db, Apply(w, a).db, j)
  {
    match a {
      case StartJob(k, worker, until) => StartLeaves(w.db, k, worker, until, j);
      case FinishJob(k, worker, failed) => FinishLeaves(w.db, k, worker, failed, j);
      case DeliverJob(k, worker, profile, report) => DeliverLeaves(w.db, k, worker, profile, report, j);
      case RecoverJob(k, actor, now, at) => RecoverLeaves(w.db, k, actor, now, at, j);
    }
  }

  lemma InsertLeavesOthers(db: Db, id: Id, job: Job, now: real, j: Id)
    requires IsJob(db, j) && id != j
    ensures Untouched(db, Insert(db, id, job, now), j)
  {}

  lemma StartLeaves(db: Db, k: Id, worker: Id, until: real, j: Id)
    requires IsJob(db, j) && (k == j ==> !CanStart(db, j))
    ensures Untouched(db, Start(db, k, worker, until), j)
  {}

  lemma FinishLeaves(db: Db, k: Id, worker: Id, failed: bool, j: Id)
    requires IsJob(db, j) && (k == j ==> !HasWorker(db, j, worker))
    ensures Untouched(db, Finish(db, k, worker, failed), j)
  {}

  lemma DeliverLeaves(db: Db, k: Id, worker: Id, profile: Id, report: StoredReport, j: Id)
    requires IsJob(db, j) && (k == j ==> !HasWorker(db, j, worker))
    ensures Untouched(db, Deliver(db, k, worker, profile, report), j)
  {}

  lemma RecoverLeaves(db: Db, k: Id, actor: string, now: real, at: real, j: Id)
    requires IsJob(db, j) && (k == j ==> !CanRecover(db, j, now))
    ensures Untouched(db, Recover(db, k, actor, now, at), j)
  {}

  /** The attempt that a step closes, if it closes any: its log says so. */
  function ClosedAttempt(db: Db, db': Db, j: Id): Option<nat> {
    if j in db.log && j in db'.log && |db'.log[j]| > |db.log[j]| then Some(db'.log[j][|db.log[j]|].attempt) else None
  }

  /** A worker's call to finish the job, or to complete it with a report. */
  predicate IsClosingCall(a: Action, j: Id, worker: Id) {
    match a
    case FinishJob(k, w, _) => k == j && w == worker
    case DeliverJob(k, w, _, _) => k == j && w == worker
    case _ => false
  }

  /**
   The lease fences off workers, not attempts: a call that a worker makes for its attempt
   k, be it to give up or to complete, closes another attempt exactly when that worker
   holds the job again by now; a completion must besides have a key of its own.
   */
  lemma FencesAttemptExactlyWhen(worlds: seq<World>, actions: seq<Action>, n: nat, a: Action, j: Id, worker: Id, k: nat)
    requires Trace(worlds, actions) && n < |worlds| && j in worlds[n].db.jobs && IsClosingCall(a, j, worker)
    requires j in worlds[n].db.log && Started(k, worker) in worlds[n].db.log[j]
    ensures ClosedAttempt(worlds[n].db, Apply(worlds[n], a).db, j) in {None, Some(k)} <==>
            !(worlds[n].db.jobs[j].worker == Some(worker) && worlds[n].db.jobs[j].attempts > k
              && (a.DeliverJob? ==> KeyIsFree(worlds[n].db, j, a.report.key)))
  {
    var db, db' := worlds[n].db, Apply(worlds[n], a).db;
    ProcessingMeansHeld(worlds, actions, n, j);
    LogsTellTheStory(worlds, actions, n, j);
    StartedEarlier(db.log[j], k, worker);
    if HasWorker(db, j, worker) && (a.DeliverJob? ==> KeyIsFree(db, j, a.report.key)) {
      CallClosesCurrent(worlds[n], a, j, worker);
    }
  }

  lemma CallClosesCurrent(w: World, a: Action, j: Id, worker: Id)
    requires IsClosingCall(a, j, worker) && HasWorker(w.db, j, worker) && w.db.jobs[j].status == Processing
    requires a.DeliverJob? ==> KeyIsFree(w.db, j, a.report.key)
    ensures ClosedAttempt(w.db, Apply(w, a).db, j) == Some(w.db.jobs[j].attempts)
  {}

  lemma StartedEarlier(log: seq<Event>, k: nat, worker: Id)
    requires IsStory(log) && Started(k, worker) in log
    ensures k <= (|log| + 1) / 2
  {
    var i :| 0 <= i < |log| && log[i] == Started(k, worker);
    assert i % 2 == 1 ==> ClosesFor(log[i], log[i - 1]);
  }

  /** And it does happen: a delivery that outlived its lease closes the attempt that replaced it. */
  lemma StaleCallClosesNewerAttempt(db: Db, j: Id, worker: Id, actor: string)
    requires JobsInv(db) && CanStart(db, j) && worker !in db.heartbeats
    ensures var recovered := Recover(Start(db, j, worker, 1.0), j, actor, 2.0, 2.0);
            var again := Start(recovered, j, worker, 3.0);
            && CanRecover(Start(db, j, worker, 1.0), j, 2.0)
            && j in again.log && Started(db.jobs[j].attempts + 1, worker) in again.log[j]
            && ClosedAttempt(again, Finish(again, j, worker, false), j) == Some(db.jobs[j].attempts + 2)
  {
    var started := Start(db, j, worker, 1.0);
    var recovered := Recover(started, j, actor, 2.0, 2.0);
    var k := db.jobs[j].attempts + 1;
    assert started.log[j] == db.log[j] + [Started(k, worker)];
    assert recovered.log[j] == started.log[j] + [Recovered(k, actor)];
    var again := Start(recovered, j, worker, 3.0);
    assert again.log[j] == recovered.log[j] + [Started(k + 1, worker)];
    assert again.log[j][|db.log[j]|] == Started(k, worker);
  }

  // ---- The handoff ----

  /** A job that is not in the outbox was handed to the queue, under a claim made after it last became due. */
  lemma NothingIsLost(worlds: seq<World>, actions: seq<Action>, n: nat, j: Id)
    requires Trace(worlds, actions) && n < |worlds| && j in worlds[n].db.jobs
    ensures j in worlds[n].db.outbox || exists claim :: HandedSince(worlds[n], j, claim)
  {
    ReachableHolds(worlds, actions, n);
    assert NotLost(worlds[n], j);
  }

  /**
   Only a dispatcher that still holds the row's last claim deletes it, and only after the queue took
   the job under it.
   */
  lemma DeletedOnlyAfterHandoff(worlds: seq<World>, actions: seq<Action>, n: nat, j: Id)
    requires Trace(worlds, actions) && n < |actions|
    requires j in worlds[n].db.outbox && j !in worlds[n + 1].db.outbox
    ensures var w, a := worlds[n], actions[n];
            && a.CompleteFirst? && HasFirst(w, a.owner, Handed) && w.batches[a.owner][0].job == j
            && j in w.claimed && w.batches[a.owner][0].claim == w.claimed[j] && HandedSince(w, j, w.claimed[j])
  {
    ReachableHolds(worlds, actions, n);
    assert StepAt(worlds, actions, n);
    OnlyCompletionDeletes(worlds[n], actions[n], j);
    DeletedWasHanded(worlds[n], actions[n].owner);
  }

  lemma OnlyCompletionDeletes(w: World, a: Action, j: Id)
    requires Enabled(w, a) && j in w.db.outbox && j !in Apply(w, a).db.outbox
    ensures a.CompleteFirst? && w.batches[a.owner][0].job == j && IsLockedBy(w.db, j, a.owner)
  {}

  /** If the row was claimed again or made due again since, completing it does nothing. */
  lemma LateCompletionDoesNothing(worlds: seq<World>, actions: seq<Action>, n: nat, owner: Id)
    requires Trace(worlds, actions) && n < |worlds| && HasFirst(worlds[n], owner, Handed)
    requires var w, item := worlds[n], worlds[n].batches[owner][0];
             (item.job in w.claimed && w.claimed[item.job] != item.claim)
                 || (item.job in w.armed && w.armed[item.job] > item.claim)
    ensures Apply(worlds[n], CompleteFirst(owner, true)).db == worlds[n].db
  {
    ReachableHolds(worlds, actions, n);
    var w, item := worlds[n], worlds[n].batches[owner][0];
    assert ItemAgrees(w, owner, item);
    assert item.job in w.db.outbox ==> ClaimIsCurrent(w, item.job);
  }

  // ---- Data ----

  /** Whatever a job is going to render conforms to the schema of the version it is pinned to. */
  lemma JobDataConforms(worlds: seq<World>, actions: seq<Action>, n: nat, j: Id)
    requires Trace(worlds, actions) && n < |worlds| && j in worlds[n].db.jobs
    ensures var job := worlds[n].db.jobs[j];
            job.version in worlds[n].db.published && Conforms(worlds[n].db.published[job.version].schema, job.data)
  {
    ReachableHolds(worlds, actions, n);
    assert JobAgrees(worlds[n].db, j);
  }

  /** A job is completed only where no report of it was recorded: recording repeats nothing and replaces nothing. */
  lemma RecordedOnce(worlds: seq<World>, actions: seq<Action>, n: nat, j: Id, worker: Id, profile: Id,
                     report: StoredReport)
    requires Trace(worlds, actions) && n < |worlds| && CanDeliver(worlds[n].db, j, worker)
    ensures j !in worlds[n].db.objects && ReportAt(j, profile) !in worlds[n].db.placements
  {
    ReachableHolds(worlds, actions, n);
    assert JobAgrees(worlds[n].db, j);
  }

  // ---- Lineage ----

  /** The first job of the tree a job belongs to. */
  ghost function Root(db: Db, j: Id): Id
    requires AllAgree(db) && j in db.jobs
    decreases db.jobs[j].born
  {
    assert JobAgrees(db, j);
    if db.jobs[j].parent.Some? then Root(db, db.jobs[j].parent.value) else j
  }

  /** Following parents always ends, at a job that is nobody's retry and as old or older. */
  lemma {:induction false} RootIsFirst(db: Db, j: Id)
    requires AllAgree(db) && j in db.jobs
    ensures Root(db, j) in db.jobs && db.jobs[Root(db, j)].parent.None? && db.jobs[Root(db, j)].born <= db.jobs[j].born
    ensures var first := db.jobs[Root(db, j)];
            first.version == db.jobs[j].version && first.data == db.jobs[j].data
                && first.dataHash == db.jobs[j].dataHash
    decreases db.jobs[j].born
  {
    assert JobAgrees(db, j);
    if db.jobs[j].parent.Some? { RootIsFirst(db, db.jobs[j].parent.value); }
  }

  /** All jobs of one retry tree render the same data with the same template version. */
  lemma TreesShareTheirRequest(worlds: seq<World>, actions: seq<Action>, n: nat, j: Id, k: Id)
    requires Trace(worlds, actions) && n < |worlds| && j in worlds[n].db.jobs && k in worlds[n].db.jobs
    requires AllAgree(worlds[n].db) ==> Root(worlds[n].db, j) == Root(worlds[n].db, k)
    ensures var a, b := worlds[n].db.jobs[j], worlds[n].db.jobs[k];
            a.version == b.version && a.data == b.data && a.dataHash == b.dataHash
  {
    ReachableHolds(worlds, actions, n);
    RootIsFirst(worlds[n].db, j);
    RootIsFirst(worlds[n].db, k);
  }

  /** A job with a retry is older than it, failed, and stays as it is for ever. */
  lemma ParentsStayFailed(worlds: seq<World>, actions: seq<Action>, n: nat, later: nat, child: Id)
    requires Trace(worlds, actions) && n <= later < |worlds|
    requires child in worlds[n].db.jobs && worlds[n].db.jobs[child].parent.Some?
    ensures var parent := worlds[n].db.jobs[child].parent.value;
            && parent in worlds[n].db.jobs && parent in worlds[later].db.jobs
            && worlds[n].db.jobs[parent].born < worlds[n].db.jobs[child].born
            && worlds[later].db.jobs[parent] == worlds[n].db.jobs[parent]
            && worlds[later].db.jobs[parent].status == Failed
  {
    ReachableHolds(worlds, actions, n);
    JobsAreKept(worlds, actions, n, later);
    assert JobAgrees(worlds[n].db, child);
    var parent := worlds[n].db.jobs[child].parent.value;
    assert JobAgrees(worlds[n].db, parent);
    assert KeepsJob(worlds[n].db, worlds[later].db, parent);
  }

  /** Retrying again with the same key gives the same job back, however much later, and changes nothing. */
  lemma RetryIsIdempotent(worlds: seq<World>, actions: seq<Action>, n: nat, later: nat,
                          child: Id, parent: Id, actor: string, key: string, id: Id, now: real, r: RetryResult,
                              after: Db)
    requires Trace(worlds, actions) && n <= later < |worlds|
    requires IsRetryOf(worlds[n].db, child, parent, actor, key) && key != ""
    requires Retries(worlds[later].db, parent, id, actor, key, now, r, after)
    ensures r == RetryAs(child, true) && after == worlds[later].db
  {
    ReachableHolds(worlds, actions, n);
    ReachableHolds(worlds, actions, later);
    ParentsStayFailed(worlds, actions, n, later, child);
    JobsAreKept(worlds, actions, n, later);
    assert JobAgrees(worlds[n].db, child);
    assert KeepsJob(worlds[n].db, worlds[later].db, child);
    assert IsRetryOf(worlds[later].db, child, parent, actor, key);
    if r.RetryAs? && r.replayed {
      assert SameRetry(worlds[later].db.jobs[child], worlds[later].db.jobs[r.id]);
    }
  }
}
