/** A worker handling one delivery of a report, from looking the job up to recording the result. */
module JobWorker {
  import opened Common
  import opened JobModel
  import opened JobProtocol
  import opened JobRepository
  import opened JobDeliveries

  /**
   What one delivery meets: whether the job can be looked up, how long the lease runs,
   what rendering yields, whether the job's profile resolves, under which key the report
   goes and whether the store takes it, whether the completion can be recorded, and
   after a failure whether closing the attempt reaches the database and whether the
   queue will not try again.
   */
  datatype Surroundings = Surroundings(found: bool, until: real, pdf: Option<Bytes>, resolves: bool, key: string,
                                       put: bool, record: bool, closes: bool, lastTry: bool)

  datatype Handling = LookupFailed | Ignored | Reported | GivenBack | Unrecorded

  predicate Succeeds(env: Surroundings) {
    env.pdf.Some? && env.resolves && env.put
  }

  /** A failing attempt is closed as failed or given back, or left open when the database is out of reach. */
  function GivenUp(db: Db, j: Id, worker: Id, env: Surroundings): Db {
    if env.closes then Finish(db, j, worker, env.lastTry) else db
  }

  function RenderingOf(profile: Id, env: Surroundings): Rendering
    requires Succeeds(env)
  {
    Rendering(Slot(profile, env.key), env.pdf.value)
  }

  /** A reported job is completed after one more attempt, with the digest and size of what was rendered. */
  lemma ReportedMeans(owner: Owner, hash: Hash, db: Db, j: Id, worker: Id, env: Surroundings, after: Db)
    requires CanStart(db, j) && Succeeds(env) && owner(env.key) == j && KeysAgree(owner, db)
    requires var r := RenderingOf(db.jobs[j].profile, env);
             after == Deliver(Start(db, j, worker, env.until), j, worker, db.jobs[j].profile, ReportOf(hash, r))
    ensures after == db.(jobs := after.jobs, log := after.log, objects := after.objects, placements := after.placements)
    ensures var job, report := db.jobs[j], StoredReport(env.key, hash(env.pdf.value), |env.pdf.value|);
            && after.objects == db.objects[j := report]
            && after.placements == db.placements[ReportAt(j, job.profile) := report]
            && after.jobs == db.jobs[j := job.(status := Completed, attempts := job.attempts + 1, worker := None,
                                               lease := None, artifact := Some(Artifact(env.key, report.digest)))]
            && after.log == db.log[j := db.log[j] + [Started(job.attempts + 1, worker),
                                                     Delivered(job.attempts + 1, worker)]]
  {
    var started := Start(db, j, worker, env.until);
    assert KeyIsFree(started, j, env.key);
    var first, last := Started(db.jobs[j].attempts + 1, worker), Delivered(db.jobs[j].attempts + 1, worker);
    assert db.log[j] + [first] + [last] == db.log[j] + [first, last];
    assert after.log == db.log[j := db.log[j] + [first, last]];
    assert after.jobs == db.jobs[j := after.jobs[j]];
  }

  /** A job that could not be reported is failed for good at the last try, and queued again before. */
  lemma GivenBackMeans(db: Db, j: Id, worker: Id, env: Surroundings)
    requires CanStart(db, j)
    ensures var job := db.jobs[j];
            var after := GivenUp(Start(db, j, worker, env.until), j, worker, env);
            && after == db.(jobs := after.jobs, log := after.log)
            && after.jobs == db.jobs[j :=
                 if !env.closes then job.(status := Processing, attempts := job.attempts + 1, worker := Some(worker),
                                          lease := Some(env.until))
                 else job.(status := if env.lastTry then Failed else Queued, attempts := job.attempts + 1,
                           worker := None, lease := None)]
  {}

  class Worker {
    const id: Id
    const repo: Repository
    var stores: map<Slot, Bytes>

    constructor (id: Id, repo: Repository)
      ensures this.id == id && this.repo == repo && stores == map[]
    {
      this.id := id;
      this.repo := repo;
      stores := map[];
    }

    /** The site as it looks from here: these rows and stores, and whatever else there is. */
    ghost predicate Matches(s: Site)
      reads this, repo
    {
      s.world.db == repo.Rows() && s.stores == stores && repo.log.Keys == repo.jobs.Keys
    }

    /**
     A queued job is started and, when nothing goes wrong, stored and then recorded as
     completed; when nothing can be stored, the attempt is closed as failed or given back,
     if the database can be reached. When the completion cannot be recorded, the report
     stays stored and the attempt open, until someone recovers it. A job that is not
     queued is left alone. The whole is a run of deliveries: begin, put, record, in this
     order.
     */
    method HandleReport(hash: Hash, ghost owner: Owner, ghost d: Id, j: Id, env: Surroundings, ghost before: Site)
      returns (handling: Handling, ghost moves: seq<Move>, ghost after: Site)
      requires Matches(before) && d !in before.deliveries
      requires owner(env.key) == j && KeysAgree(owner, repo.Rows())
      modifies this, repo
      ensures handling.LookupFailed? <==> !env.found || j !in old(repo.jobs)
      ensures handling.Ignored? <==> env.found && j in old(repo.jobs) && old(repo.jobs)[j].status != Queued
      ensures handling.Reported? <==> env.found && CanStart(old(repo.Rows()), j) && Succeeds(env) && env.record
      ensures handling.Unrecorded? <==> env.found && CanStart(old(repo.Rows()), j) && Succeeds(env) && !env.record
      ensures handling.LookupFailed? ==> repo.Rows() == GivenUp(old(repo.Rows()), j, id, env)
      ensures handling.Ignored? ==> repo.Rows() == old(repo.Rows()) && moves == []
      ensures handling.GivenBack? ==>
                repo.Rows() == GivenUp(Start(old(repo.Rows()), j, id, env.until), j, id, env)
      ensures handling.Reported? ==>
                var r := RenderingOf(old(repo.jobs)[j].profile, env);
                && moves == [Begin(d, j, id, env.until), Put(d, r), Record(d)]
                && stores == old(stores)[r.slot := r.contents]
                && repo.Rows() == Deliver(Start(old(repo.Rows()), j, id, env.until), j, id, r.slot.profile,
                                          ReportOf(hash, r))
                && HasReport(repo.Rows(), j, ReportOf(hash, r))
      ensures handling.Unrecorded? ==>
                var r := RenderingOf(old(repo.jobs)[j].profile, env);
                && moves == [Begin(d, j, id, env.until), Put(d, r), Quit(d)]
                && stores == old(stores)[r.slot := r.contents]
                && repo.Rows() == Start(old(repo.Rows()), j, id, env.until)
      ensures !handling.Reported? && !handling.Unrecorded? ==> stores == old(stores)
      ensures MovesTo(owner, hash, before, moves, after) && Matches(after) && after.deliveries == before.deliveries
    {
      moves, after := [], before;
      if !env.found || j !in repo.jobs {
        moves, after := GiveUp(hash, owner, j, env, before, moves, after);
        return LookupFailed, moves, after;
      }
      if repo.jobs[j].status != Queued { return Ignored, moves, after; }
      handling, moves, after := HandleQueued(hash, owner, d, j, env, before);
    }

    method HandleQueued(hash: Hash, ghost owner: Owner, ghost d: Id, j: Id, env: Surroundings, ghost before: Site)
      returns (handling: Handling, ghost moves: seq<Move>, ghost after: Site)
      requires Matches(before) && d !in before.deliveries && CanStart(repo.Rows(), j)
      requires owner(env.key) == j && KeysAgree(owner, repo.Rows())
      modifies this, repo
      ensures handling == if !Succeeds(env) then GivenBack else if env.record then Reported else Unrecorded
      ensures handling.GivenBack? ==>
                repo.Rows() == GivenUp(Start(old(repo.Rows()), j, id, env.until), j, id, env)
      ensures handling.Reported? ==>
                var r := RenderingOf(old(repo.jobs)[j].profile, env);
                && moves == [Begin(d, j, id, env.until), Put(d, r), Record(d)]
                && stores == old(stores)[r.slot := r.contents]
                && repo.Rows() == Deliver(Start(old(repo.Rows()), j, id, env.until), j, id, r.slot.profile,
                                          ReportOf(hash, r))
                && HasReport(repo.Rows(), j, ReportOf(hash, r))
      ensures handling.Unrecorded? ==>
                var r := RenderingOf(old(repo.jobs)[j].profile, env);
                && moves == [Begin(d, j, id, env.until), Put(d, r), Quit(d)]
                && stores == old(stores)[r.slot := r.contents]
                && repo.Rows() == Start(old(repo.Rows()), j, id, env.until)
      ensures !handling.Reported? && !handling.Unrecorded? ==> stores == old(stores)
      ensures MovesTo(owner, hash, before, moves, after) && Matches(after) && after.deliveries == before.deliveries
    {
      var profile := repo.jobs[j].profile;
      moves, after := StartWork(hash, owner, d, j, env, before);
      handling, moves, after := Produce(hash, owner, d, j, profile, env, before, moves, after);
    }

    method StartWork(hash: Hash, ghost owner: Owner, ghost d: Id, j: Id, env: Surroundings, ghost before: Site)
      returns (ghost moves: seq<Move>, ghost after: Site)
      requires Matches(before) && d !in before.deliveries && CanStart(repo.Rows(), j)
      modifies repo
      ensures repo.Rows() == Start(old(repo.Rows()), j, id, env.until) && repo.objects == old(repo.objects)
      ensures moves == [Begin(d, j, id, env.until)] && CanDeliver(repo.Rows(), j, id)
      ensures MovesTo(owner, hash, before, moves, after) && Matches(after)
      ensures d in after.deliveries && IsFresh(after.deliveries[d], j, id)
      ensures after.deliveries - {d} == before.deliveries
    {
      var claimed := repo.MarkProcessing(j, id, env.until);
      moves, after := TakeMove(owner, hash, before, [], before, Begin(d, j, id, env.until));
    }

    /** What follows the start of an attempt, with nothing in between. */
    method Produce(hash: Hash, ghost owner: Owner, ghost d: Id, j: Id, profile: Id, env: Surroundings,
                   ghost before: Site, ghost soFar: seq<Move>, ghost middle: Site)
      returns (handling: Handling, ghost moves: seq<Move>, ghost after: Site)
      requires MovesTo(owner, hash, before, soFar, middle) && Matches(middle)
      requires d in middle.deliveries && IsFresh(middle.deliveries[d], j, id) && CanDeliver(repo.Rows(), j, id)
      requires owner(env.key) == j && KeysAgree(owner, repo.Rows())
      modifies this, repo
      ensures handling == if !Succeeds(env) then GivenBack else if env.record then Reported else Unrecorded
      ensures handling.GivenBack? ==> repo.Rows() == GivenUp(old(repo.Rows()), j, id, env)
      ensures handling.Reported? ==>
                var r := RenderingOf(profile, env);
                && moves == soFar + [Put(d, r), Record(d)]
                && stores == old(stores)[r.slot := r.contents]
                && repo.Rows() == Deliver(old(repo.Rows()), j, id, profile, ReportOf(hash, r))
                && HasReport(repo.Rows(), j, ReportOf(hash, r))
      ensures handling.Unrecorded? ==>
                var r := RenderingOf(profile, env);
                && moves == soFar + [Put(d, r), Quit(d)]
                && stores == old(stores)[r.slot := r.contents] && repo.Rows() == old(repo.Rows())
      ensures handling.GivenBack? ==> stores == old(stores)
      ensures MovesTo(owner, hash, before, moves, after) && Matches(after)
      ensures after.deliveries == middle.deliveries - {d}
    {
      moves, after := soFar, middle;
      if env.pdf.None? || !env.resolves || !env.put {
        moves, after := GiveUp(hash, owner, j, env, before, moves, after);
        moves, after := TakeMove(owner, hash, before, moves, after, Quit(d));
        return GivenBack, moves, after;
      }
      var r := RenderingOf(profile, env);
      moves, after := Store(hash, owner, d, j, r, before, moves, after);
      if !env.record {
        moves, after := TakeMove(owner, hash, before, moves, after, Quit(d));
        return Unrecorded, moves, after;
      }
      moves, after := Complete(hash, owner, d, j, r, before, moves, after);
      return Reported, moves, after;
    }

    method Store(hash: Hash, ghost owner: Owner, ghost d: Id, j: Id, r: Rendering,
                 ghost before: Site, ghost soFar: seq<Move>, ghost middle: Site)
      returns (ghost moves: seq<Move>, ghost after: Site)
      requires MovesTo(owner, hash, before, soFar, middle) && Matches(middle)
      requires d in middle.deliveries && IsFresh(middle.deliveries[d], j, id) && owner(r.slot.key) == j
      modifies this
      ensures moves == soFar + [Put(d, r)] && stores == old(stores)[r.slot := r.contents]
      ensures MovesTo(owner, hash, before, moves, after) && Matches(after)
      ensures after.deliveries == middle.deliveries[d := middle.deliveries[d].(put := Some(r))]
    {
      stores := stores[r.slot := r.contents];
      moves, after := TakeMove(owner, hash, before, soFar, middle, Put(d, r));
    }

    method Complete(hash: Hash, ghost owner: Owner, ghost d: Id, j: Id, r: Rendering,
                    ghost before: Site, ghost soFar: seq<Move>, ghost middle: Site)
      returns (ghost moves: seq<Move>, ghost after: Site)
      requires MovesTo(owner, hash, before, soFar, middle) && Matches(middle)
      requires d in middle.deliveries && middle.deliveries[d].job == j && middle.deliveries[d].worker == id
      requires middle.deliveries[d].put == Some(r) && CanDeliver(repo.Rows(), j, id)
      requires owner(r.slot.key) == j && KeysAgree(owner, repo.Rows())
      modifies repo
      ensures moves == soFar + [Record(d)]
      ensures repo.Rows() == Deliver(old(repo.Rows()), j, id, r.slot.profile, ReportOf(hash, r))
      ensures HasReport(repo.Rows(), j, ReportOf(hash, r))
      ensures MovesTo(owner, hash, before, moves, after) && Matches(after)
      ensures after.deliveries == middle.deliveries - {d}
    {
      var report := StoredReport(r.slot.key, hash(r.contents), |r.contents|);
      DeliveryCompletes(owner, hash, repo.Rows(), j, id, r);
      var ok := repo.MarkCompleted(j, id, r.slot.profile, report);
      moves, after := TakeMove(owner, hash, before, soFar, middle, Record(d));
      RecordingDelivers(hash, middle, d, r);
    }

    method GiveUp(hash: Hash, ghost owner: Owner, j: Id, env: Surroundings,
                  ghost before: Site, ghost soFar: seq<Move>, ghost middle: Site)
      returns (ghost moves: seq<Move>, ghost after: Site)
      requires MovesTo(owner, hash, before, soFar, middle) && Matches(middle)
      modifies repo
      ensures repo.Rows() == GivenUp(old(repo.Rows()), j, id, env)
      ensures MovesTo(owner, hash, before, moves, after) && Matches(after) && after.deliveries == middle.deliveries
    {
      moves, after := soFar, middle;
      if !env.closes { return; }
      repo.FinishAttempt(j, id, env.lastTry);
      moves, after := TakeMove(owner, hash, before, soFar, middle, Other(FinishJob(j, id, env.lastTry)));
    }
  }

  /** The job is completed, and this is its report. */
  ghost predicate HasReport(db: Db, j: Id, report: StoredReport) {
    j in db.jobs && db.jobs[j].status == Completed && j in db.objects && db.objects[j] == report
  }

  /** No other job's report has the key, so the report is recorded. */
  lemma DeliveryCompletes(owner: Owner, hash: Hash, db: Db, j: Id, worker: Id, r: Rendering)
    requires CanDeliver(db, j, worker) && owner(r.slot.key) == j && KeysAgree(owner, db)
    ensures var after := Deliver(db, j, worker, r.slot.profile, ReportOf(hash, r));
            HasReport(after, j, ReportOf(hash, r)) && after.jobs.Keys == db.jobs.Keys && after.log.Keys == db.log.Keys
  {}

  lemma RecordingDelivers(hash: Hash, s: Site, d: Id, r: Rendering)
    requires d in s.deliveries && s.deliveries[d].put == Some(r)
    ensures var delivery, after := s.deliveries[d], Moved(hash, s, Record(d));
            && after.world.db == Deliver(s.world.db, delivery.job, delivery.worker, r.slot.profile, ReportOf(hash, r))
            && after.stores == s.stores && after.deliveries == s.deliveries - {d}
  {}

  ghost predicate IsFresh(delivery: Delivery, j: Id, worker: Id) {
    delivery.job == j && delivery.worker == worker && delivery.put.None?
  }
}
