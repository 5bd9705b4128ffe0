/**
 Everything that can happen to report jobs, one atomic step at a time: requests,
 dispatchers with their batches, workers whose calls may come at any time and more than
 once, operators, and the passing of heartbeats.
 */
module JobProtocol {
  import opened Common
  import opened ContractSchema
  import opened JobModel
  import opened JobLog

  /** Where a dispatcher stands with one row of its batch: claimed, taken by the queue, or not. */
  datatype Phase = Claimed | Handed | Deferred
  datatype BatchItem = BatchItem(job: Id, claim: nat, phase: Phase)

  /** The queue accepted the job, or had it already, while a dispatcher acted on this claim. */
  datatype Handoff = Handoff(job: Id, claim: nat)

  /**
   `handoffs`, `armed`, `claimed` and `serial` are history: every accepted handoff, and
   for each row how many claims there had been when it was made due and when it was
   claimed last.
   */
  datatype World = World(
    db: Db,
    batches: map<Id, seq<BatchItem>>,
    tasks: set<Id>,
    handoffs: set<Handoff>,
    armed: map<Id, nat>,
    claimed: map<Id, nat>,
    serial: nat)

  datatype Action =
    | CreateJob(request: Request, version: VersionId, now: real)
    | RetryJob(parent: Id, id: Id, actor: string, key: string, now: real)
    | ClaimBatch(owner: Id, limit: nat, now: real, until: real, busy: set<Id>, chosen: seq<Id>)
    | Enqueue(owner: Id, accepted: bool)
    | CompleteFirst(owner: Id, reached: bool)
    | DeferFirst(owner: Id, reached: bool, availableAt: real)
    | StopDispatcher(owner: Id)
    | StartJob(job: Id, worker: Id, until: real)
    | FinishJob(job: Id, worker: Id, failed: bool)
    | DeliverJob(job: Id, worker: Id, profile: Id, report: StoredReport)
    | RecoverJob(job: Id, actor: string, now: real, at: real)
    | Heartbeat(worker: Id, now: real)
    | Publish(slug: string, version: VersionId, contract: PublishedVersion)
    | SetDefaultProfile(chosenProfile: Option<Id>)
    | ForgetTask(job: Id)

  predicate HasFirst(w: World, owner: Id, phase: Phase) {
    owner in w.batches && w.batches[owner] != [] && w.batches[owner][0].phase == phase
  }

  ghost predicate Enabled(w: World, a: Action) {
    match a
    case CreateJob(q, v, now) =>
      && q.id !in w.db.jobs && w.db.defaultProfile.Some? && Resolves(w.db, q, v) && HashAgrees(w.db, q, v)
      && Conforms(w.db.published[v].schema, q.data)
    case RetryJob(parent, id, actor, key, now) =>
      && MayRetry(w.db, parent) && CanCopy(w.db, parent, id, key)
      && (key != "" ==> forall k :: !IsRetryOf(w.db, k, parent, actor, key))
    case ClaimBatch(owner, limit, now, until, busy, chosen) =>
      && (owner in w.batches ==> w.batches[owner] == [])
      && IsBatch(w.db, limit, now, busy, Members(chosen))
    case Enqueue(owner, _) => HasFirst(w, owner, Claimed)
    case CompleteFirst(owner, _) => HasFirst(w, owner, Handed)
    case DeferFirst(owner, _, _) => HasFirst(w, owner, Deferred)
    case Publish(_, v, _) => v !in w.db.published
    case _ => true
  }

  function Arm(w: World, db: Db, j: Id): World {
    w.(db := db, armed := w.armed[j := w.serial])
  }

  function BatchOf(chosen: seq<Id>, claim: nat): (batch: seq<BatchItem>)
    ensures forall item | item in batch :: item.job in chosen && item.claim == claim && item.phase == Claimed
  {
    seq(|chosen|, i requires 0 <= i < |chosen| => BatchItem(chosen[i], claim, Claimed))
  }

  function ClaimInto(w: World, owner: Id, until: real, chosen: seq<Id>): World {
    w.(db := ClaimRows(w.db, owner, Members(chosen), until),
       batches := w.batches[owner := BatchOf(chosen, w.serial)],
       claimed := map j | j in w.claimed.Keys + Members(chosen) :: if j in chosen then w.serial else w.claimed[j],
       serial := w.serial + 1)
  }

  /** The queue takes the first row's job under its own name, so a job is in the queue at most once. */
  function EnqueueFirst(w: World, owner: Id, accepted: bool): World
    requires HasFirst(w, owner, Claimed)
  {
    var item := w.batches[owner][0];
    w.(batches := w.batches[owner := [item.(phase := if accepted then Handed else Deferred)] + w.batches[owner][1..]],
       tasks := if accepted then w.tasks + {item.job} else w.tasks,
       handoffs := if accepted then w.handoffs + {Handoff(item.job, item.claim)} else w.handoffs)
  }

  function PopFirst(w: World, owner: Id, db: Db): World
    requires owner in w.batches && w.batches[owner] != []
  {
    w.(db := db, batches := w.batches[owner := w.batches[owner][1..]])
  }

  function Apply(w: World, a: Action): World {
    match a
    case CreateJob(q, v, now) => if w.db.defaultProfile.Some? then Arm(w, CreateFrom(w.db, q, v, now), q.id) else w
    case RetryJob(parent, id, actor, key, now) =>
      if CanCopy(w.db, parent, id, key) then Arm(w, RetryFrom(w.db, parent, id, actor, key, now), id) else w
    case ClaimBatch(owner, _, _, until, _, chosen) => ClaimInto(w, owner, until, chosen)
    case Enqueue(owner, accepted) => if HasFirst(w, owner, Claimed) then EnqueueFirst(w, owner, accepted) else w
    case CompleteFirst(owner, reached) =>
      if HasFirst(w, owner, Handed) then
        PopFirst(w, owner, if reached then CompleteRow(w.db, w.batches[owner][0].job, owner) else w.db)
      else w
    case DeferFirst(owner, reached, availableAt) =>
      if HasFirst(w, owner, Deferred) then
        PopFirst(w, owner, if reached then RetryRow(w.db, w.batches[owner][0].job, owner, availableAt) else w.db)
      else w
    case StopDispatcher(owner) => w.(batches := w.batches - {owner})
    case StartJob(j, worker, until) => w.(db := Start(w.db, j, worker, until))
    case FinishJob(j, worker, failed) => w.(db := Finish(w.db, j, worker, failed))
    case DeliverJob(j, worker, profile, report) => w.(db := Deliver(w.db, j, worker, profile, report))
    case RecoverJob(j, actor, now, at) =>
      if CanRecover(w.db, j, now) then Arm(w, Recover(w.db, j, actor, now, at), j) else w
    case Heartbeat(worker, now) => w.(db := Beat(w.db, worker, now))
    case Publish(slug, v, contract) =>
      w.(db := w.db.(templates := w.db.templates[slug := v.template], published := w.db.published[v := contract]))
    case SetDefaultProfile(profile) => w.(db := w.db.(defaultProfile := profile))
    case ForgetTask(j) => w.(tasks := w.tasks - {j})
  }

  ghost predicate Initial(w: World) {
    && w.db.jobs == map[] && w.db.log == map[] && w.db.outbox == map[] && w.db.objects == map[]
    && w.db.placements == map[]
    && w.batches == map[] && w.handoffs == {}
  }

  ghost predicate StepAt(worlds: seq<World>, actions: seq<Action>, i: nat)
    requires i < |actions| && |worlds| == |actions| + 1
  {
    Enabled(worlds[i], actions[i]) && worlds[i + 1] == Apply(worlds[i], actions[i])
  }

  ghost predicate Trace(worlds: seq<World>, actions: seq<Action>) {
    && |worlds| == |actions| + 1
    && Initial(worlds[0])
    && (forall i | 0 <= i < |actions| :: StepAt(worlds, actions, i))
  }

  // ---- Runs ----

  /** `after` is where the actions lead from `before`, each of them enabled when it is taken. */
  ghost predicate Leads(before: World, actions: seq<Action>, after: World)
    decreases |actions|, 1
  {
    if actions == [] then after == before else LeadsFrom(before, actions, after)
  }

  ghost predicate LeadsFrom(before: World, actions: seq<Action>, after: World)
    requires actions != []
    decreases |actions|, 0
  {
    Enabled(before, actions[0]) && Leads(Apply(before, actions[0]), actions[1..], after)
  }

  lemma {:induction false} LeadsOn(before: World, actions: seq<Action>, middle: World, next: Action)
    requires Leads(before, actions, middle) && Enabled(middle, next)
    ensures Leads(before, actions + [next], Apply(middle, next))
    decreases |actions|
  {
    if actions == [] {
      assert [next][1..] == [];
      assert LeadsFrom(before, [next], Apply(before, next));
    } else {
      assert LeadsFrom(before, actions, middle);
      LeadsOn(Apply(before, actions[0]), actions[1..], middle, next);
      assert (actions + [next])[1..] == actions[1..] + [next];
      assert LeadsFrom(before, actions + [next], Apply(middle, next));
    }
  }

  /** One more step at the end of a run. */
  lemma Take(before: World, run: seq<Action>, middle: World, next: Action) returns (run': seq<Action>, after: World)
    requires Leads(before, run, middle) && Enabled(middle, next)
    ensures Leads(before, run', after) && after == Apply(middle, next) && run' == run + [next]
  {
    LeadsOn(before, run, middle, next);
    run', after := run + [next], Apply(middle, next);
  }

  // ---- Invariants of the rows ----

  /** The job's state is the replay of its log, and it holds a worker exactly together with a lease. */
  ghost predicate LogAgrees(db: Db, j: Id) {
    && IsJob(db, j) && Replay(db.log[j]) == StateOf(db.jobs[j])
    && (db.jobs[j].worker.Some? <==> db.jobs[j].lease.Some?)
  }

  /** A report object is there exactly when the job is completed, and it is the job's artifact. */
  ghost predicate ArtifactAgrees(db: Db, j: Id)
    requires j in db.jobs
  {
    && (db.jobs[j].status == Completed <==> j in db.objects)
    && (db.jobs[j].status == Completed <==> db.jobs[j].artifact.Some?)
    && (j in db.objects ==> db.jobs[j].artifact == Some(Artifact(db.objects[j].key, db.objects[j].digest)))
  }

  /** The data a job is to render conforms to the schema of the version it is pinned to. */
  ghost predicate DataConforms(db: Db, j: Id)
    requires j in db.jobs
  {
    db.jobs[j].version in db.published && Conforms(db.published[db.jobs[j].version].schema, db.jobs[j].data)
  }

  /** A retry is newer than the failed job it copies. */
  ghost predicate LineageAgrees(db: Db, j: Id)
    requires j in db.jobs
  {
    var job := db.jobs[j];
    && job.born < |db.jobs|
    && (job.key.Some? ==> job.parent.Some?)
    && (job.parent.Some? ==>
          && job.parent.value in db.jobs
          && var parent := db.jobs[job.parent.value];
             && parent.status == Failed && parent.born < job.born
             && parent.version == job.version && parent.data == job.data && parent.dataHash == job.dataHash)
  }

  ghost predicate JobAgrees(db: Db, j: Id)
    requires j in db.jobs
  {
    LogAgrees(db, j) && ArtifactAgrees(db, j) && DataConforms(db, j) && LineageAgrees(db, j)
  }

  /** At most one retry for each parent, actor and key. */
  ghost predicate RetriesUnique(db: Db) {
    forall j, k | j in db.jobs && k in db.jobs && SameRetry(db.jobs[j], db.jobs[k]) :: j == k
  }

  predicate SameRetry(a: Job, b: Job) {
    a.parent.Some? && a.key.Some? && a.parent == b.parent && a.key == b.key && a.requestedBy == b.requestedBy
  }

  ghost predicate TablesAgree(db: Db) {
    && db.log.Keys == db.jobs.Keys && db.outbox.Keys <= db.jobs.Keys && db.objects.Keys <= db.jobs.Keys
    && (forall p | p in db.placements :: p.job in db.objects && db.placements[p] == db.objects[p.job])
  }

  ghost predicate AllAgree(db: Db) {
    forall j {:trigger JobAgrees(db, j)} | j in db.jobs :: JobAgrees(db, j)
  }

  ghost predicate JobsInv(db: Db) {
    TablesAgree(db) && RetriesUnique(db) && AllAgree(db)
  }

  // ---- Invariants of the handoff ----

  ghost predicate HandedSince(w: World, j: Id, claim: nat) {
    j in w.armed && claim >= w.armed[j] && Handoff(j, claim) in w.handoffs
  }

  /** A row goes only after its job was handed over under a claim made since the row was last due. */
  ghost predicate NotLost(w: World, j: Id) {
    j in w.armed && w.armed[j] <= w.serial && (j in w.db.outbox || exists claim :: HandedSince(w, j, claim))
  }

  ghost predicate ClaimIsCurrent(w: World, j: Id) {
    j in w.db.outbox && w.db.outbox[j].lockedBy.Some? ==> j in w.armed && j in w.claimed && w.claimed[j] >= w.armed[j]
  }

  /** While a row is locked by a dispatcher, the claim in its batch is the row's last claim. */
  ghost predicate ItemAgrees(w: World, owner: Id, item: BatchItem) {
    && (IsLockedBy(w.db, item.job, owner) ==> item.job in w.claimed && w.claimed[item.job] == item.claim)
    && (item.phase == Handed ==> Handoff(item.job, item.claim) in w.handoffs)
  }

  ghost predicate HandoffInv(w: World) {
    && (forall j | j in w.db.jobs :: NotLost(w, j))
    && (forall j | j in w.db.outbox :: ClaimIsCurrent(w, j))
    && (forall owner, item | owner in w.batches && item in w.batches[owner] :: ItemAgrees(w, owner, item))
  }
}
