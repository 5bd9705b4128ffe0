/**
 Report jobs as rows: each transaction is a function of the rows, or a relation where
 the database leaves a choice. Times are arguments.
 */
module JobModel {
  import opened Common
  import opened Json
  import opened ContractSchema

  datatype VersionId = VersionId(template: Id, number: nat)
  datatype PublishedVersion = PublishedVersion(schema: Schema, schemaHash: Digest)

  datatype Status = Queued | Processing | Completed | Failed
  datatype Artifact = Artifact(key: string, digest: Digest)

  /** `born` is the number of jobs there were when this one was inserted. */
  datatype Job = Job(version: VersionId, data: Value, dataHash: Digest, requestedBy: Option<string>, profile: Id,
                     status: Status, attempts: nat, worker: Option<Id>, lease: Option<real>,
                     parent: Option<Id>, key: Option<string>, artifact: Option<Artifact>, born: nat)

  datatype Event =
    | Started(attempt: nat, worker: Id)
    | Retried(attempt: nat, worker: Id)
    | GaveUp(attempt: nat, worker: Id)
    | Delivered(attempt: nat, worker: Id)
    | Recovered(attempt: nat, actor: string)

  datatype OutboxRow = OutboxRow(attempts: nat, availableAt: real, lockedBy: Option<Id>, lockedUntil: Option<real>,
                                 created: real)

  datatype StoredReport = StoredReport(key: string, digest: Digest, size: nat)
  datatype ReportAt = ReportAt(job: Id, profile: Id)

  datatype Db = Db(
    templates: map<string, Id>,
    published: map<VersionId, PublishedVersion>,
    defaultProfile: Option<Id>,
    jobs: map<Id, Job>,
    log: map<Id, seq<Event>>,
    outbox: map<Id, OutboxRow>,
    heartbeats: map<Id, real>,
    objects: map<Id, StoredReport>,
    placements: map<ReportAt, StoredReport>)

  const MAX_KEY := 200

  // ---- Creating jobs ----

  datatype Request = Request(id: Id, slug: string, number: Option<nat>, schemaHash: Option<Digest>, data: Value,
                             dataHash: Digest, requestedBy: string, allowed: Option<set<string>>)

  /** What validating the data said: it conforms, it does not, or validation itself failed. */
  datatype Verdict = Accepted | Refused | Unanswered

  datatype CreateResult = Created(version: VersionId) | NotCreated(error: CreateError)
  datatype CreateError = UnknownTemplate | ContractChanged | InvalidData | NotValidated | NoDefaultProfile | IdTaken

  predicate IsCandidate(db: Db, q: Request, v: VersionId) {
    && q.slug in db.templates && db.templates[q.slug] == v.template
    && (q.allowed.Some? ==> q.slug in q.allowed.value)
    && v in db.published && (q.number.Some? ==> v.number == q.number.value)
  }

  /** The newest published version, or the one asked for. */
  ghost predicate Resolves(db: Db, q: Request, v: VersionId) {
    IsCandidate(db, q, v) && forall u | IsCandidate(db, q, u) :: u.number <= v.number
  }

  function NewJob(db: Db, version: VersionId, data: Value, dataHash: Digest, requestedBy: Option<string>, profile: Id,
                  parent: Option<Id>, key: Option<string>): Job {
    Job(version, data, dataHash, requestedBy, profile, Queued, 0, None, None, parent, key, None, |db.jobs|)
  }

  function Insert(db: Db, id: Id, job: Job, now: real): Db {
    db.(jobs := db.jobs[id := job], log := db.log[id := []],
        outbox := db.outbox[id := OutboxRow(0, now, None, None, now)])
  }

  function NonEmpty(text: string): Option<string> {
    if text == "" then None else Some(text)
  }

  function CreateFrom(db: Db, q: Request, v: VersionId, now: real): Db
    requires db.defaultProfile.Some?
  {
    Insert(db, q.id, NewJob(db, v, q.data, q.dataHash, NonEmpty(q.requestedBy), db.defaultProfile.value, None,
                            None), now)
  }

  predicate HashAgrees(db: Db, q: Request, v: VersionId)
    requires v in db.published
  {
    q.schemaHash.Some? ==> q.schemaHash.value == db.published[v].schemaHash
  }

  /** The checks in their order; any refusal leaves the rows alone. */
  ghost predicate Creates(db: Db, q: Request, verdict: Verdict, now: real, r: CreateResult, after: Db) {
    match r
    case Created(v) =>
      && Resolves(db, q, v) && HashAgrees(db, q, v) && verdict == Accepted
      && db.defaultProfile.Some? && q.id !in db.jobs && after == CreateFrom(db, q, v, now)
    case NotCreated(error) =>
      && after == db
      && (error == UnknownTemplate <==> forall v :: !IsCandidate(db, q, v))
      && forall v | Resolves(db, q, v) ::
           && (error == ContractChanged <==> !HashAgrees(db, q, v))
           && (HashAgrees(db, q, v) ==>
                 error == match verdict
                          case Refused => InvalidData
                          case Unanswered => NotValidated
                          case Accepted => if db.defaultProfile.None? then NoDefaultProfile else IdTaken)
           && (error == IdTaken ==> q.id in db.jobs)
  }

  // ---- The outbox ----

  predicate IsEligible(db: Db, j: Id, now: real) {
    && j in db.outbox && db.outbox[j].availableAt <= now
    && (db.outbox[j].lockedUntil.Some? ==> db.outbox[j].lockedUntil.value < now)
  }

  function Eligible(db: Db, now: real, busy: set<Id>): set<Id> {
    set j | j in db.outbox && IsEligible(db, j, now) && j !in busy
  }

  function Members(chosen: seq<Id>): set<Id> {
    set j | j in chosen
  }

  predicate NoLaterThan(db: Db, j: Id, k: Id) {
    j in db.outbox && k in db.outbox && db.outbox[j].created <= db.outbox[k].created
  }

  /** A batch takes the oldest rows that are due and not locked, as many as allowed. */
  ghost predicate IsBatch(db: Db, limit: nat, now: real, busy: set<Id>, chosen: set<Id>) {
    && chosen <= Eligible(db, now, busy)
    && |chosen| <= limit
    && (|chosen| < limit ==> chosen == Eligible(db, now, busy))
    && forall j, k | j in chosen && k in Eligible(db, now, busy) - chosen :: NoLaterThan(db, j, k)
  }

  function ClaimRows(db: Db, owner: Id, chosen: set<Id>, until: real): Db {
    db.(outbox := map j | j in db.outbox ::
          if j in chosen then db.outbox[j].(lockedBy := Some(owner), lockedUntil := Some(until)) else db.outbox[j])
  }

  predicate IsLockedBy(db: Db, j: Id, owner: Id) {
    j in db.outbox && db.outbox[j].lockedBy == Some(owner)
  }

  function CompleteRow(db: Db, j: Id, owner: Id): Db {
    if IsLockedBy(db, j, owner) then db.(outbox := db.outbox - {j}) else db
  }

  function RetryRow(db: Db, j: Id, owner: Id, availableAt: real): Db {
    if IsLockedBy(db, j, owner) then
      db.(outbox := db.outbox[j := db.outbox[j].(attempts := db.outbox[j].attempts + 1, availableAt := availableAt,
                                                 lockedBy := None, lockedUntil := None)])
    else db
  }

  /** A row that is made due again belongs to nobody. */
  function Rearm(db: Db, j: Id, now: real): Db {
    var due := if j in db.outbox then db.outbox[j].(availableAt := now, lockedBy := None, lockedUntil := None)
               else OutboxRow(0, now, None, None, now);
    db.(outbox := db.outbox[j := due])
  }

  // ---- Attempts ----

  function WithJob(db: Db, j: Id, job: Job, event: Event): Db
    requires j in db.log
  {
    db.(jobs := db.jobs[j := job], log := db.log[j := db.log[j] + [event]])
  }

  predicate IsJob(db: Db, j: Id) {
    j in db.jobs && j in db.log
  }

  predicate CanStart(db: Db, j: Id) {
    IsJob(db, j) && db.jobs[j].status == Queued
  }

  function Start(db: Db, j: Id, worker: Id, until: real): Db {
    if CanStart(db, j) then
      var job := db.jobs[j];
      WithJob(db, j, job.(status := Processing, attempts := job.attempts + 1, worker := Some(worker),
                          lease := Some(until)),
              Started(job.attempts + 1, worker))
    else db
  }

  /** The worker is the job's current one. Only its name is compared, not the attempt. */
  predicate HasWorker(db: Db, j: Id, worker: Id) {
    IsJob(db, j) && db.jobs[j].worker == Some(worker)
  }

  function Finish(db: Db, j: Id, worker: Id, failed: bool): Db {
    if HasWorker(db, j, worker) then
      var job := db.jobs[j];
      WithJob(db, j, job.(status := if failed then Failed else Queued, worker := None, lease := None),
              if failed then GaveUp(job.attempts, worker) else Retried(job.attempts, worker))
    else db
  }

  predicate CanDeliver(db: Db, j: Id, worker: Id) {
    HasWorker(db, j, worker) && db.jobs[j].status == Processing
  }

  /** Reports have distinct keys; the database refuses a second one with the same key. */
  predicate KeyIsFree(db: Db, j: Id, key: string) {
    forall k | k in db.objects && k != j :: db.objects[k].key != key
  }

  /** Without the current worker's ownership the report's object and placement are rolled back too. */
  function Deliver(db: Db, j: Id, worker: Id, profile: Id, report: StoredReport): Db {
    if CanDeliver(db, j, worker) && KeyIsFree(db, j, report.key) then
      var job := db.jobs[j];
      WithJob(db.(objects := db.objects[j := report], placements := db.placements[ReportAt(j, profile) := report]), j,
              job.(status := Completed, artifact := Some(Artifact(report.key, report.digest)), worker := None,
                   lease := None),
              Delivered(job.attempts, worker))
    else db
  }

  const HEARTBEAT_WINDOW := 30.0

  predicate IsAlive(db: Db, worker: Id, now: real) {
    worker in db.heartbeats && db.heartbeats[worker] >= now - HEARTBEAT_WINDOW
  }

  predicate CanRecover(db: Db, j: Id, now: real) {
    && IsJob(db, j) && db.jobs[j].status == Processing
    && db.jobs[j].lease.Some? && db.jobs[j].lease.value < now
    && !(db.jobs[j].worker.Some? && IsAlive(db, db.jobs[j].worker.value, now))
  }

  function Recover(db: Db, j: Id, actor: string, now: real, at: real): Db {
    if CanRecover(db, j, now) then
      var job := db.jobs[j];
      WithJob(Rearm(db, j, at), j, job.(status := Queued, worker := None, lease := None),
              Recovered(job.attempts, actor))
    else db
  }

  function Beat(db: Db, worker: Id, now: real): Db {
    db.(heartbeats := db.heartbeats[worker := now])
  }

  // ---- Retrying failed jobs ----

  datatype RetryResult = RetryAs(id: Id, replayed: bool) | NotRetried(error: RetryError)
  datatype RetryError = UnknownJob | NotFailed | TemplateGone | Rejected

  predicate IsRetryOf(db: Db, id: Id, parent: Id, actor: string, key: string) {
    id in db.jobs && db.jobs[id].parent == Some(parent) && db.jobs[id].requestedBy == Some(actor)
        && db.jobs[id].key == Some(key)
  }

  predicate MayRetry(db: Db, parent: Id) {
    parent in db.jobs && db.jobs[parent].status == Failed
  }

  predicate CanCopy(db: Db, parent: Id, id: Id, key: string) {
    && parent in db.jobs && db.jobs[parent].version in db.published && db.defaultProfile.Some?
    && id !in db.jobs && |key| <= MAX_KEY
  }

  function RetryFrom(db: Db, parent: Id, id: Id, actor: string, key: string, now: real): Db
    requires CanCopy(db, parent, id, key)
  {
    var failed := db.jobs[parent];
    Insert(db, id, NewJob(db, failed.version, failed.data, failed.dataHash, Some(actor), db.defaultProfile.value,
                          Some(parent), NonEmpty(key)), now)
  }

  ghost predicate Retries(db: Db, parent: Id, id: Id, actor: string, key: string, now: real, r: RetryResult,
                          after: Db) {
    match r
    case RetryAs(child, true) =>
      after == db && MayRetry(db, parent) && key != "" && IsRetryOf(db, child, parent, actor, key)
    case RetryAs(child, false) =>
      && child == id && MayRetry(db, parent) && CanCopy(db, parent, id, key)
      && (key != "" ==> forall k :: !IsRetryOf(db, k, parent, actor, key))
      && after == RetryFrom(db, parent, id, actor, key, now)
    case NotRetried(error) =>
      && after == db
      && (error == UnknownJob <==> parent !in db.jobs)
      && (error == NotFailed <==> parent in db.jobs && db.jobs[parent].status != Failed)
      && (MayRetry(db, parent) ==>
            && (key != "" ==> forall k :: !IsRetryOf(db, k, parent, actor, key))
            && (error == TemplateGone <==> db.jobs[parent].version !in db.published || db.defaultProfile.None?)
            && (error == Rejected ==> !CanCopy(db, parent, id, key)))
  }
}
