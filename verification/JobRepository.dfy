/** The job repository as it runs: transactions that update tables, and roll back where ownership is gone. */
module JobRepository {
  import opened Common
  import opened Json
  import opened ContractSchema
  import opened JobModel
  import V = ContractValidate

  lemma {:induction false} LargestExists(versions: set<VersionId>) returns (largest: VersionId)
    requires versions != {}
    ensures largest in versions && forall v | v in versions :: v.number <= largest.number
  {
    var x :| x in versions;
    largest := x;
    if versions != {x} {
      var other := LargestExists(versions - {x});
      if other.number > x.number { largest := other; }
      forall v | v in versions ensures v.number <= largest.number { assert v == x || v in versions - {x}; }
    }
  }

  lemma {:induction false} OldestExists(db: Db, rows: set<Id>) returns (oldest: Id)
    requires rows != {} && forall j | j in rows :: j in db.outbox
    ensures oldest in rows && forall k | k in rows :: NoLaterThan(db, oldest, k)
  {
    var x :| x in rows;
    oldest := x;
    if rows != {x} {
      var other := OldestExists(db, rows - {x});
      if NoLaterThan(db, other, x) { oldest := other; }
      forall k | k in rows ensures NoLaterThan(db, oldest, k) { assert k == x || k in rows - {x}; }
    }
  }

  /** The verdict is that of validation: only conforming data is accepted, and only other data refused. */
  ghost predicate VerdictAgrees(schema: Schema, data: Value, verdict: Verdict) {
    && (verdict == Accepted ==> Conforms(schema, data))
    && (verdict == Refused ==> !Conforms(schema, data))
    && (Conforms(schema, data) && V.Visits(schema, data, 0) ==> verdict == Accepted)
  }

  /** The version is published, of the template asked for, which the caller may use, and of the number asked for. */
  ghost predicate MayUse(templates: map<string, Id>, published: map<VersionId, PublishedVersion>, q: Request,
                         v: VersionId) {
    && v in published && q.slug in templates && v.template == templates[q.slug]
    && (match q.allowed case None => true case Some(slugs) => q.slug in slugs)
    && (match q.number case None => true case Some(number) => v.number == number)
  }

  ghost predicate IsNewest(templates: map<string, Id>, published: map<VersionId, PublishedVersion>, q: Request,
                           v: VersionId) {
    && MayUse(templates, published, q, v)
    && forall u | u in published && MayUse(templates, published, q, u) :: u.number <= v.number
  }

  /** The row is due, and nobody's lock on it is still in force. */
  predicate IsUnclaimed(outbox: map<Id, OutboxRow>, j: Id, now: real) {
    && j in outbox && outbox[j].availableAt <= now
    && (match outbox[j].lockedUntil case None => true case Some(until) => until < now)
  }

  /** None of the batch is younger than the row. */
  predicate AllOlder(outbox: map<Id, OutboxRow>, batch: seq<Id>, j: Id)
    requires j in outbox
  {
    forall k | k in batch :: k in outbox && outbox[k].created <= outbox[j].created
  }

  /** Exactly the rows of the batch are locked. */
  predicate AreLocked(before: map<Id, OutboxRow>, after: map<Id, OutboxRow>, batch: seq<Id>, owner: Id, until: real) {
    && after.Keys == before.Keys
    && (forall j | j in before && j in batch ::
          after[j] == before[j].(lockedBy := Some(owner), lockedUntil := Some(until)))
    && (forall j | j in before && j !in batch :: after[j] == before[j])
  }

  /** The job was made by this actor as a retry of the parent under the key. */
  predicate HasAsked(job: Job, parent: Id, actor: string, key: string) {
    job.parent == Some(parent) && job.requestedBy == Some(actor) && job.key == Some(key)
  }

  lemma CandidatesMayBeUsed(db: Db, q: Request)
    ensures forall v :: IsCandidate(db, q, v) <==> MayUse(db.templates, db.published, q, v)
  {}

  /** A batch in terms of its rows: all were due and free, and what is left is no older and did not fit in. */
  lemma BatchMeans(db: Db, limit: nat, now: real, busy: set<Id>, batch: seq<Id>)
    requires IsBatch(db, limit, now, busy, Members(batch)) && |batch| == |Members(batch)|
    ensures |batch| <= limit
    ensures forall j | j in batch :: IsUnclaimed(db.outbox, j, now) && j !in busy
    ensures forall j | IsUnclaimed(db.outbox, j, now) && j !in busy && j !in batch ::
              |batch| == limit && AllOlder(db.outbox, batch, j)
  {
    var chosen, eligible := Members(batch), Eligible(db, now, busy);
    forall j | IsUnclaimed(db.outbox, j, now) && j !in busy && j !in batch
      ensures |batch| == limit && AllOlder(db.outbox, batch, j)
    {
      assert j in eligible;
      assert j !in chosen;
      forall k | k in batch ensures k in db.outbox && db.outbox[k].created <= db.outbox[j].created {
        assert k in chosen && NoLaterThan(db, k, j);
      }
    }
    forall j | j in batch ensures IsUnclaimed(db.outbox, j, now) && j !in busy { assert j in chosen; }
  }

  class Repository {
    var templates: map<string, Id>
    var published: map<VersionId, PublishedVersion>
    var defaultProfile: Option<Id>
    var jobs: map<Id, Job>
    var log: map<Id, seq<Event>>
    var outbox: map<Id, OutboxRow>
    var heartbeats: map<Id, real>
    var objects: map<Id, StoredReport>
    var placements: map<ReportAt, StoredReport>

    function Rows(): Db
      reads this
    {
      Db(templates, published, defaultProfile, jobs, log, outbox, heartbeats, objects, placements)
    }

    /** The newest published version the request may use, or the one it asks for. */
    method ResolveVersion(q: Request) returns (version: Option<VersionId>)
      ensures version.Some? ==> Resolves(Rows(), q, version.value)
      ensures version.None? ==> forall v :: !IsCandidate(Rows(), q, v)
      ensures version.Some? ==> IsNewest(templates, published, q, version.value)
      ensures version.None? ==> forall v :: !MayUse(templates, published, q, v)
    {
      var candidates := set v | v in published && IsCandidate(Rows(), q, v);
      CandidatesMayBeUsed(Rows(), q);
      if candidates == {} {
        forall v ensures !IsCandidate(Rows(), q, v) { assert v !in candidates; }
        return None;
      }
      ghost var largest := LargestExists(candidates);
      var v :| v in candidates && forall u | u in candidates :: u.number <= v.number;
      return Some(v);
    }

    /** Only data that conforms to the schema of the resolved version becomes a job. */
    method Create(q: Request, now: real) returns (r: CreateResult, verdict: Verdict)
      modifies this
      ensures Creates(old(Rows()), q, verdict, now, r, Rows())
      ensures r.Created? ==> Conforms(published[r.version].schema, q.data)
      ensures r.Created? ==>
                && IsNewest(templates, published, q, r.version)
                && (q.schemaHash.Some? ==> q.schemaHash.value == published[r.version].schemaHash)
                && q.id !in old(jobs) && defaultProfile.Some?
                && Rows() == old(Rows()).(jobs := jobs, log := log, outbox := outbox)
                && jobs == old(jobs)[q.id :=
                     Job(r.version, q.data, q.dataHash, if q.requestedBy == "" then None else Some(q.requestedBy),
                         defaultProfile.value, Queued, 0, None, None, None, None, None, |old(jobs)|)]
                && log == old(log)[q.id := []]
                && outbox == old(outbox)[q.id := OutboxRow(0, now, None, None, now)]
      ensures !r.Created? ==> Rows() == old(Rows())
      ensures r == NotCreated(UnknownTemplate) <==> forall v :: !MayUse(templates, published, q, v)
      ensures r == NotCreated(ContractChanged) <==>
                exists v :: IsNewest(templates, published, q, v) && q.schemaHash.Some?
                            && q.schemaHash.value != published[v].schemaHash
      ensures r == NotCreated(InvalidData) ==>
                exists v :: IsNewest(templates, published, q, v) && !Conforms(published[v].schema, q.data)
      ensures r == NotCreated(NoDefaultProfile) ==> defaultProfile.None?
      ensures r == NotCreated(IdTaken) ==> q.id in old(jobs)
      ensures forall v | IsNewest(templates, published, q, v) ::
                (&& Conforms(published[v].schema, q.data) && V.Visits(published[v].schema, q.data, 0)
                 && (q.schemaHash.Some? ==> q.schemaHash.value == published[v].schemaHash)
                 && defaultProfile.Some? && q.id !in old(jobs)) ==> r == Created(v)
      ensures forall v | Resolves(old(Rows()), q, v) && HashAgrees(old(Rows()), q, v) ::
                VerdictAgrees(old(published)[v].schema, q.data, verdict)
    {
      var resolved := ResolveVersion(q);
      if resolved.None? { return NotCreated(UnknownTemplate), Unanswered; }
      var v := resolved.value;
      assert IsCandidate(Rows(), q, v);
      OnlyOneResolves(Rows(), q, v);
      if q.schemaHash.Some?
          && q.schemaHash.value != published[v].schemaHash { return NotCreated(ContractChanged), Unanswered; }
      var outcome, errors := V.Validate(published[v].schema, q.data);
      V.ConformsIffNoErrors(published[v].schema, q.data, []);
      V.EmptyReport(errors);
      if !outcome.Done? { return NotCreated(NotValidated), Unanswered; }
      if errors != [] { return NotCreated(InvalidData), Refused; }
      if defaultProfile.None? { return NotCreated(NoDefaultProfile), Accepted; }
      if q.id in jobs { return NotCreated(IdTaken), Accepted; }
      var job := NewJob(Rows(), v, q.data, q.dataHash, NonEmpty(q.requestedBy), defaultProfile.value, None, None);
      InsertJob(q.id, job, now);
      return Created(v), Accepted;
    }

    /** A job comes with its empty log and its outbox row. */
    method InsertJob(id: Id, job: Job, now: real)
      modifies this
      ensures Rows() == Insert(old(Rows()), id, job, now)
    {
      jobs := jobs[id := job];
      log := log[id := []];
      outbox := outbox[id := OutboxRow(0, now, None, None, now)];
    }

    /** `busy` are the rows other transactions have locked just now. */
    method ClaimOutbox(owner: Id, limit: nat, lease: real, now: real, busy: set<Id>) returns (claimed: seq<Id>)
      modifies this
      ensures IsBatch(old(Rows()), limit, now, busy, Members(claimed))
      ensures Rows() == ClaimRows(old(Rows()), owner, Members(claimed), now + lease)
      ensures |claimed| <= limit && forall a, b | 0 <= a < b < |claimed| :: claimed[a] != claimed[b]
      ensures forall j | j in claimed :: IsUnclaimed(old(outbox), j, now) && j !in busy
      ensures forall j | IsUnclaimed(old(outbox), j, now) && j !in busy && j !in claimed ::
                |claimed| == limit && AllOlder(old(outbox), claimed, j)
      ensures Rows() == old(Rows()).(outbox := outbox)
      ensures AreLocked(old(outbox), outbox, claimed, owner, now + lease)
    {
      claimed := ChooseBatch(limit, now, busy);
      BatchMeans(Rows(), limit, now, busy, claimed);
      LockRows(claimed, owner, now + lease);
    }

    method LockRows(claimed: seq<Id>, owner: Id, until: real)
      modifies this
      ensures Rows() == ClaimRows(old(Rows()), owner, Members(claimed), until)
      ensures Rows() == old(Rows()).(outbox := outbox) && AreLocked(old(outbox), outbox, claimed, owner, until)
    {
      outbox := map j | j in outbox ::
        if j in claimed then outbox[j].(lockedBy := Some(owner), lockedUntil := Some(until)) else outbox[j];
    }

    method ChooseBatch(limit: nat, now: real, busy: set<Id>) returns (claimed: seq<Id>)
      ensures IsBatch(Rows(), limit, now, busy, Members(claimed))
      ensures |claimed| == |Members(claimed)| && forall a, b | 0 <= a < b < |claimed| :: claimed[a] != claimed[b]
    {
      var rest := Eligible(Rows(), now, busy);
      var chosen: set<Id> := {};
      claimed := [];
      while rest != {} && |claimed| < limit
        invariant chosen == Members(claimed)
        invariant |chosen| == |claimed| <= limit
        invariant forall a, b | 0 <= a < b < |claimed| :: claimed[a] != claimed[b]
        invariant chosen + rest == Eligible(Rows(), now, busy) && chosen !! rest
        invariant forall j, k | j in chosen && k in rest :: NoLaterThan(Rows(), j, k)
        decreases |rest|
      {
        ghost var oldest := OldestExists(Rows(), rest);
        var j :| j in rest && forall k | k in rest :: NoLaterThan(Rows(), j, k);
        rest, chosen, claimed := rest - {j}, chosen + {j}, claimed + [j];
      }
      assert Eligible(Rows(), now, busy) - chosen == rest;
    }

    method CompleteOutbox(j: Id, owner: Id)
      modifies this
      ensures Rows() == CompleteRow(old(Rows()), j, owner)
      ensures Rows() == old(Rows()).(outbox := outbox)
      ensures outbox == if j in old(outbox) && old(outbox)[j].lockedBy == Some(owner) then old(outbox) - {j}
                        else old(outbox)
    {
      if j in outbox && outbox[j].lockedBy == Some(owner) { outbox := outbox - {j}; }
    }

    method RetryOutbox(j: Id, owner: Id, availableAt: real)
      modifies this
      ensures Rows() == RetryRow(old(Rows()), j, owner, availableAt)
      ensures Rows() == old(Rows()).(outbox := outbox)
      ensures if j in old(outbox) && old(outbox)[j].lockedBy == Some(owner)
              then var row := old(outbox)[j];
                   outbox == old(outbox)[j := OutboxRow(row.attempts + 1, availableAt, None, None, row.created)]
              else outbox == old(outbox)
    {
      if j in outbox && outbox[j].lockedBy == Some(owner) {
        outbox := outbox[j := outbox[j].(attempts := outbox[j].attempts + 1, availableAt := availableAt,
                                         lockedBy := None, lockedUntil := None)];
      }
    }

    method MarkProcessing(j: Id, worker: Id, until: real) returns (claimed: bool)
      requires log.Keys == jobs.Keys
      modifies this
      ensures Rows() == Start(old(Rows()), j, worker, until)
      ensures claimed <==> j in old(jobs) && old(jobs)[j].status == Queued
      ensures !claimed ==> Rows() == old(Rows())
      ensures claimed ==>
                var attempt := old(jobs)[j].attempts + 1;
                && Rows() == old(Rows()).(jobs := jobs, log := log)
                && jobs == old(jobs)[j := old(jobs)[j].(status := Processing, attempts := attempt,
                                                        worker := Some(worker), lease := Some(until))]
                && log == old(log)[j := old(log)[j] + [Started(attempt, worker)]]
    {
      if j !in jobs || jobs[j].status != Queued { return false; }
      var attempt := jobs[j].attempts + 1;
      jobs := jobs[j := jobs[j].(status := Processing, attempts := attempt, worker := Some(worker),
                                 lease := Some(until))];
      log := log[j := log[j] + [Started(attempt, worker)]];
      return true;
    }

    /**
     The report's object and placement are written first; when the job turns out not to
     be this worker's any more, the transaction rolls back and neither is left behind.
     */
    method MarkCompleted(j: Id, worker: Id, profile: Id, report: StoredReport) returns (ok: bool)
      requires log.Keys == jobs.Keys
      modifies this
      ensures Rows() == Deliver(old(Rows()), j, worker, profile, report)
      ensures ok <==> j in old(jobs) && old(jobs)[j].status == Processing && old(jobs)[j].worker == Some(worker)
                      && KeyIsFree(old(Rows()), j, report.key)
      ensures !ok ==> Rows() == old(Rows())
      ensures ok ==>
                && (forall k | k in old(objects) && k != j :: old(objects)[k].key != report.key)
                && Rows() == old(Rows()).(jobs := jobs, log := log, objects := objects, placements := placements)
                && objects == old(objects)[j := report]
                && placements == old(placements)[ReportAt(j, profile) := report]
                && jobs == old(jobs)[j := old(jobs)[j].(status := Completed, worker := None, lease := None,
                                                        artifact := Some(Artifact(report.key, report.digest)))]
                && log == old(log)[j := old(log)[j] + [Delivered(old(jobs)[j].attempts, worker)]]
    {
      if exists k | k in objects && k != j :: objects[k].key == report.key { return false; }
      var objectsBefore, placementsBefore := objects, placements;
      objects := objects[j := report];
      placements := placements[ReportAt(j, profile) := report];
      if j !in jobs || jobs[j].status != Processing || jobs[j].worker != Some(worker) {
        objects, placements := objectsBefore, placementsBefore;
        return false;
      }
      var attempt := jobs[j].attempts;
      jobs := jobs[j := jobs[j].(status := Completed, artifact := Some(Artifact(report.key, report.digest)),
                                 worker := None, lease := None)];
      log := log[j := log[j] + [Delivered(attempt, worker)]];
      return true;
    }

    /** Marks the job failed, or queued again for a retry by the queue. */
    method FinishAttempt(j: Id, worker: Id, failed: bool)
      requires log.Keys == jobs.Keys
      modifies this
      ensures Rows() == Finish(old(Rows()), j, worker, failed)
      ensures if j in old(jobs) && old(jobs)[j].worker == Some(worker) then
                var attempt := old(jobs)[j].attempts;
                && Rows() == old(Rows()).(jobs := jobs, log := log)
                && jobs == old(jobs)[j := old(jobs)[j].(status := if failed then Failed else Queued, worker := None,
                                                        lease := None)]
                && log == old(log)[j := old(log)[j] + [if failed then GaveUp(attempt, worker)
                                                       else Retried(attempt, worker)]]
              else Rows() == old(Rows())
    {
      if j !in jobs || jobs[j].worker != Some(worker) { return; }
      var attempt := jobs[j].attempts;
      jobs := jobs[j := jobs[j].(status := if failed then Failed else Queued, worker := None, lease := None)];
      log := log[j := log[j] + [if failed then GaveUp(attempt, worker) else Retried(attempt, worker)]];
    }

    /** A retry is a new job with the failed one's data; the same key gives the same job again. */
    method Retry(parent: Id, id: Id, actor: string, key: string, now: real) returns (r: RetryResult)
      modifies this
      ensures Retries(old(Rows()), parent, id, actor, key, now, r, Rows())
      ensures r == NotRetried(UnknownJob) <==> parent !in old(jobs)
      ensures r == NotRetried(NotFailed) <==> parent in old(jobs) && old(jobs)[parent].status != Failed
      ensures r == NotRetried(TemplateGone) ==>
                old(jobs)[parent].version !in published || defaultProfile.None?
      ensures r == NotRetried(Rejected) ==> id in old(jobs) || |key| > 200
      ensures parent in old(jobs) && old(jobs)[parent].status == Failed ==>
                (r.RetryAs? && r.replayed <==> key != "" && exists k :: k in old(jobs) && HasAsked(old(jobs)[k], parent,
                                                                                               actor, key))
      ensures r.RetryAs? && r.replayed ==>
                key != "" && r.id in jobs && HasAsked(jobs[r.id], parent, actor, key)
      ensures !(r.RetryAs? && !r.replayed) ==> Rows() == old(Rows())
      ensures r.RetryAs? && !r.replayed ==>
                && r.id == id && id !in old(jobs) && parent in old(jobs) && old(jobs)[parent].status == Failed
                && old(jobs)[parent].version in published && defaultProfile.Some?
                && (key != "" ==> forall k | k in old(jobs) :: !HasAsked(old(jobs)[k], parent, actor, key))
                && Rows() == old(Rows()).(jobs := jobs, log := log, outbox := outbox)
                && jobs == old(jobs)[id :=
                     Job(old(jobs)[parent].version, old(jobs)[parent].data, old(jobs)[parent].dataHash, Some(actor),
                         defaultProfile.value, Queued, 0, None, None, Some(parent),
                         if key == "" then None else Some(key), None, |old(jobs)|)]
                && log == old(log)[id := []]
                && outbox == old(outbox)[id := OutboxRow(0, now, None, None, now)]
    {
      if parent !in jobs { return NotRetried(UnknownJob); }
      if jobs[parent].status != Failed { return NotRetried(NotFailed); }
      if key != "" {
        var existing := set k | k in jobs && IsRetryOf(Rows(), k, parent, actor, key);
        if existing != {} {
          var child :| child in existing;
          return RetryAs(child, true);
        }
        forall k ensures !IsRetryOf(Rows(), k, parent, actor, key) { assert k !in existing; }
        forall k | k in jobs ensures !HasAsked(jobs[k], parent, actor, key) { assert k !in existing; }
      }
      if jobs[parent].version !in published || defaultProfile.None? { return NotRetried(TemplateGone); }
      if id in jobs || |key| > MAX_KEY { return NotRetried(Rejected); }
      var failed := jobs[parent];
      var job := NewJob(Rows(), failed.version, failed.data, failed.dataHash, Some(actor), defaultProfile.value,
                        Some(parent), NonEmpty(key));
      InsertJob(id, job, now);
      return RetryAs(id, false);
    }

    /** Takes a job from a worker whose lease ran out and whose heartbeat stopped. */
    method RecoverStale(j: Id, actor: string, now: real, at: real) returns (ok: bool)
      requires log.Keys == jobs.Keys
      modifies this
      ensures Rows() == Recover(old(Rows()), j, actor, now, at)
      ensures ok <==> CanRecover(old(Rows()), j, now)
      ensures ok <==>
                && j in old(jobs) && old(jobs)[j].status == Processing
                && old(jobs)[j].lease.Some? && old(jobs)[j].lease.value < now
                && var worker := old(jobs)[j].worker;
                   !(worker.Some? && worker.value in heartbeats && heartbeats[worker.value] >= now - 30.0)
      ensures !ok ==> Rows() == old(Rows())
      ensures ok ==>
                && Rows() == old(Rows()).(jobs := jobs, log := log, outbox := outbox)
                && jobs == old(jobs)[j := old(jobs)[j].(status := Queued, worker := None, lease := None)]
                && log == old(log)[j := old(log)[j] + [Recovered(old(jobs)[j].attempts, actor)]]
                && outbox == old(outbox)[j :=
                     if j in old(outbox)
                     then OutboxRow(old(outbox)[j].attempts, at, None, None, old(outbox)[j].created)
                     else OutboxRow(0, at, None, None, at)]
    {
      if j !in jobs || jobs[j].status != Processing { return false; }
      var job := jobs[j];
      if job.lease.None? || job.lease.value >= now { return false; }
      if job.worker.Some? && job.worker.value in heartbeats
          && heartbeats[job.worker.value] >= now - HEARTBEAT_WINDOW { return false; }
      jobs := jobs[j := job.(status := Queued, worker := None, lease := None)];
      if j in outbox {
        outbox := outbox[j := outbox[j].(availableAt := at, lockedBy := None, lockedUntil := None)];
      } else {
        outbox := outbox[j := OutboxRow(0, at, None, None, at)];
      }
      log := log[j := log[j] + [Recovered(job.attempts, actor)]];
      return true;
    }
  }

  lemma OnlyOneResolves(db: Db, q: Request, v: VersionId)
    requires Resolves(db, q, v)
    ensures forall u | Resolves(db, q, u) :: u == v
  {}
}
