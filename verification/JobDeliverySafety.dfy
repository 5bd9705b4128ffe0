/** What every move of a delivery keeps, and what a late one can do. */
module JobDeliverySafety {
  import opened Common
  import opened JobModel
  import opened JobProtocol
  import opened JobSafety
  import opened JobDeliveries
  import R = JobRuns

  // ---- What one step does ----

  /** Only a start begins an attempt. */
  lemma AttemptsStay(w: World, a: Action, j: Id)
    requires Enabled(w, a) && j in w.db.jobs && j in Apply(w, a).db.jobs && !a.StartJob?
    requires w.db.jobs.Keys == w.db.log.Keys
    ensures Apply(w, a).db.jobs[j].attempts == w.db.jobs[j].attempts
  {}

  lemma StartAdds(w: World, j: Id, worker: Id, until: real)
    requires CanStart(w.db, j)
    ensures var db := Apply(w, StartJob(j, worker, until)).db;
            && IsJob(db, j) && db.jobs[j].attempts == w.db.jobs[j].attempts + 1 && db.jobs[j].status == Processing
            && (forall k | k in w.db.jobs && k != j :: k in db.jobs && db.jobs[k] == w.db.jobs[k])
            && (forall k | k in db.jobs && k != j :: k in w.db.jobs)
            && db.objects == w.db.objects && db.placements == w.db.placements
  {}

  /** Only a delivery records reports. */
  lemma ReportsStay(w: World, a: Action)
    requires Enabled(w, a) && !a.DeliverJob?
    ensures SameReports(w.db, Apply(w, a).db)
  {
    match a {
      case StartJob(j, worker, until) => StartKeepsReports(w.db, j, worker, until);
      case FinishJob(j, worker, failed) => FinishKeepsReports(w.db, j, worker, failed);
      case RecoverJob(j, actor, now, at) => RecoverKeepsReports(w.db, j, actor, now, at);
      case CompleteFirst(owner, _) => RowsKeepReports(w.db, w.batches[owner][0].job, owner, 0.0);
      case DeferFirst(owner, _, availableAt) => RowsKeepReports(w.db, w.batches[owner][0].job, owner, availableAt);
      case _ =>
    }
  }

  predicate SameReports(db: Db, db': Db) {
    db'.objects == db.objects && db'.placements == db.placements
  }

  lemma StartKeepsReports(db: Db, j: Id, worker: Id, until: real)
    ensures SameReports(db, Start(db, j, worker, until))
  {}

  lemma FinishKeepsReports(db: Db, j: Id, worker: Id, failed: bool)
    ensures SameReports(db, Finish(db, j, worker, failed))
  {}

  lemma RecoverKeepsReports(db: Db, j: Id, actor: string, now: real, at: real)
    ensures SameReports(db, Recover(db, j, actor, now, at))
  {}

  lemma RowsKeepReports(db: Db, j: Id, owner: Id, at: real)
    ensures SameReports(db, CompleteRow(db, j, owner)) && SameReports(db, RetryRow(db, j, owner, at))
  {}

  /** A report is recorded for the first time, under one placement; whoever records repeats nothing. */
  lemma DeliveredAfresh(db: Db, j: Id, worker: Id, profile: Id, report: StoredReport)
    requires JobsInv(db) && Deliver(db, j, worker, profile, report) != db
    ensures j !in db.objects && forall p | p in db.placements :: p.job != j
    ensures var db' := Deliver(db, j, worker, profile, report);
            && db'.objects == db.objects[j := report] && db'.placements == db.placements[ReportAt(j, profile) := report]
            && IsJob(db', j) && db'.jobs[j].status == Completed
  {
    assert JobAgrees(db, j);
  }

  lemma RecordingDoes(hash: Hash, s: Site, d: Id)
    requires d in s.deliveries && s.deliveries[d].put.Some?
    ensures var del, s' := s.deliveries[d], Moved(hash, s, Record(d));
            && s'.stores == s.stores && s'.deliveries == s.deliveries - {d}
            && s'.world == s.world.(db := Deliver(s.world.db, del.job, del.worker, del.put.value.slot.profile,
                                                  ReportOf(hash, del.put.value)))
  {}

  // ---- Deliveries ----

  lemma AttemptsOnlyGrow(owner: Owner, hash: Hash, s: Site, m: Move, j: Id)
    requires MayMove(owner, s, m) && JobsInv(s.world.db) && HandoffInv(s.world) && j in s.world.db.jobs
    ensures IsJob(Moved(hash, s, m).world.db, j)
    ensures Moved(hash, s, m).world.db.jobs[j].attempts
            == s.world.db.jobs[j].attempts + (if m.Begin? && m.job == j then 1 else 0)
  {
    MoveKeepsJobs(owner, hash, s, m);
    assert JobAgrees(s.world.db, j);
    assert KeepsJob(s.world.db, Moved(hash, s, m).world.db, j);
    match m {
      case Other(a) => AttemptsStay(s.world, a, j);
      case Begin(_, k, worker, until) => StartAdds(s.world, k, worker, until);
      case Record(d) => AttemptsStay(s.world, Recording(hash, s.deliveries[d]), j);
      case _ =>
    }
  }

  lemma MoveKeepsDeliveries(owner: Owner, hash: Hash, s: Site, m: Move)
    requires MayMove(owner, s, m) && SiteInv(owner, hash, s)
    ensures DeliveriesAgree(owner, Moved(hash, s, m))
  {
    var s' := Moved(hash, s, m);
    forall d | d in s'.deliveries ensures DeliveryAgrees(owner, s', s'.deliveries[d]) {
      if d in s.deliveries {
        assert DeliveryAgrees(owner, s, s.deliveries[d]);
        AttemptsOnlyGrow(owner, hash, s, m, s.deliveries[d].job);
      } else {
        AttemptsOnlyGrow(owner, hash, s, m, m.job);
      }
    }
    forall d, e | d in s'.deliveries && e in s'.deliveries && d != e && s'.deliveries[d].job == s'.deliveries[e].job
      ensures s'.deliveries[d].attempt != s'.deliveries[e].attempt
    {
      NewAttemptIsNew(owner, hash, s, m, d, e);
    }
  }

  lemma NewAttemptIsNew(owner: Owner, hash: Hash, s: Site, m: Move, d: Id, e: Id)
    requires MayMove(owner, s, m) && DeliveriesAgree(owner, s)
    requires d in Moved(hash, s, m).deliveries && e in Moved(hash, s, m).deliveries && d != e
    requires Moved(hash, s, m).deliveries[d].job == Moved(hash, s, m).deliveries[e].job
    ensures Moved(hash, s, m).deliveries[d].attempt != Moved(hash, s, m).deliveries[e].attempt
  {
    assert d in s.deliveries ==> DeliveryAgrees(owner, s, s.deliveries[d]);
    assert e in s.deliveries ==> DeliveryAgrees(owner, s, s.deliveries[e]);
  }

  lemma MoveKeepsKeys(owner: Owner, hash: Hash, s: Site, m: Move)
    requires MayMove(owner, s, m) && SiteInv(owner, hash, s)
    ensures KeysAgree(owner, Moved(hash, s, m).world.db)
  {
    match m {
      case Other(a) => ReportsStay(s.world, a);
      case Begin(_, j, worker, until) => StartAdds(s.world, j, worker, until);
      case Record(d) =>
        var del := s.deliveries[d];
        assert DeliveryAgrees(owner, s, del);
        RecordingDoes(hash, s, d);
        var slot, report := del.put.value.slot, ReportOf(hash, del.put.value);
        if Deliver(s.world.db, del.job, del.worker, slot.profile, report) != s.world.db {
          DeliveredAfresh(s.world.db, del.job, del.worker, slot.profile, report);
        }
      case _ =>
    }
  }

  // ---- Single attempts ----

  /** With one attempt there is at most one delivery of the job. */
  lemma OnlyDelivery(owner: Owner, s: Site, d: Id, e: Id)
    requires DeliveriesAgree(owner, s) && d in s.deliveries && e in s.deliveries
    requires s.deliveries[d].job == s.deliveries[e].job
    requires s.deliveries[d].job in s.world.db.jobs && s.world.db.jobs[s.deliveries[d].job].attempts <= 1
    ensures d == e
  {
    assert DeliveryAgrees(owner, s, s.deliveries[d]) && DeliveryAgrees(owner, s, s.deliveries[e]);
  }

  lemma MoveKeepsStored(owner: Owner, hash: Hash, s: Site, m: Move, d: Id)
    requires MayMove(owner, s, m) && SiteInv(owner, hash, s) && d in Moved(hash, s, m).deliveries
    ensures StillStored(Moved(hash, s, m), Moved(hash, s, m).deliveries[d])
  {
    if d in s.deliveries {
      var del := s.deliveries[d];
      assert DeliveryAgrees(owner, s, del) && StillStored(s, del);
      AttemptsOnlyGrow(owner, hash, s, m, del.job);
      if m.Put? && m.delivery != d && s.world.db.jobs[del.job].attempts == 1 && del.put.Some? {
        if s.deliveries[m.delivery].job == del.job { OnlyDelivery(owner, s, d, m.delivery); }
        assert m.rendering.slot != del.put.value.slot;
      }
    }
  }

  ghost predicate OnceDone(s: Site, j: Id) {
    j in s.world.db.jobs && s.world.db.jobs[j].status == Completed && s.world.db.jobs[j].attempts == 1
  }

  /** Contents of a slot that does not belong to the job's deliveries stay. */
  lemma DoneStaysIntact(owner: Owner, hash: Hash, s: Site, m: Move, j: Id)
    requires MayMove(owner, s, m) && SiteInv(owner, hash, s)
    requires j in s.world.db.jobs && s.world.db.jobs[j].status == Completed
    requires IsIntact(hash, s, j) && !IsPending(s, j)
    ensures IsIntact(hash, Moved(hash, s, m), j) && !IsPending(Moved(hash, s, m), j)
    ensures AnyoneOn(Moved(hash, s, m), j) ==> AnyoneOn(s, j)
    ensures j in Moved(hash, s, m).world.db.jobs && Moved(hash, s, m).world.db.jobs[j] == s.world.db.jobs[j]
  {
    var s' := Moved(hash, s, m);
    DoneStaysRecorded(owner, hash, s, m, j);
    forall profile | ReportAt(j, profile) in s'.world.db.placements ensures IsIntactAt(hash, s', j, profile) {
      assert R.SamePlacement(s.world.db, s'.world.db, ReportAt(j, profile));
      assert IsIntactAt(hash, s, j, profile);
      OthersStoreElsewhere(owner, hash, s, m, j, profile);
    }
    NobodyNewOn(owner, hash, s, m, j);
  }

  lemma DoneStaysRecorded(owner: Owner, hash: Hash, s: Site, m: Move, j: Id)
    requires MayMove(owner, s, m) && SiteInv(owner, hash, s)
    requires j in s.world.db.jobs && s.world.db.jobs[j].status == Completed
    ensures R.Untouched(s.world.db, Moved(hash, s, m).world.db, j)
  {
    var steps := StepsOf(hash, s, m);
    if steps != [] {
      DoneMayNotChange(s.world.db, steps[0], j);
      R.OnlyTheHolderActs(s.world, steps[0], j);
    }
  }

  lemma DoneMayNotChange(db: Db, a: Action, j: Id)
    requires JobsInv(db) && j in db.jobs && db.jobs[j].status == Completed
    ensures IsJob(db, j) && !R.MayChange(db, a, j)
  {
    assert JobAgrees(db, j);
    WorkersProcess(db.log[j]);
  }

  lemma OthersStoreElsewhere(owner: Owner, hash: Hash, s: Site, m: Move, j: Id, profile: Id)
    requires MayMove(owner, s, m) && KeysAgree(owner, s.world.db) && j in s.world.db.objects && !IsPending(s, j)
    ensures var slot := Slot(profile, s.world.db.objects[j].key);
            (slot in s.stores ==> slot in Moved(hash, s, m).stores && Moved(hash, s, m).stores[slot] == s.stores[slot])
  {
    if m.Put? { assert s.deliveries[m.delivery].job != j; }
  }

  lemma NobodyNewOn(owner: Owner, hash: Hash, s: Site, m: Move, j: Id)
    requires MayMove(owner, s, m) && j in s.world.db.jobs && s.world.db.jobs[j].status == Completed
    ensures IsPending(Moved(hash, s, m), j) ==> IsPending(s, j)
    ensures AnyoneOn(Moved(hash, s, m), j) ==> AnyoneOn(s, j)
  {
    var s' := Moved(hash, s, m);
    forall d | d in s'.deliveries && s'.deliveries[d].job == j
      ensures d in s.deliveries && s.deliveries[d].job == j
      ensures s'.deliveries[d].put.None? ==> s.deliveries[d].put.None?
    {}
  }

  /** A job that this move completes, in its only attempt, is intact, and nobody is left on it. */
  lemma NewlyDone(owner: Owner, hash: Hash, s: Site, m: Move, j: Id)
    requires MayMove(owner, s, m) && SiteInv(owner, hash, s) && OnceDone(Moved(hash, s, m), j)
    requires !(j in s.world.db.jobs && s.world.db.jobs[j].status == Completed)
    ensures IsIntact(hash, Moved(hash, s, m), j) && !AnyoneOn(Moved(hash, s, m), j)
  {
    var d := OnlyRecordCompletes(owner, hash, s, m, j);
    var del, s' := s.deliveries[d], Moved(hash, s, m);
    var slot, report := del.put.value.slot, ReportOf(hash, del.put.value);
    RecordingDoes(hash, s, d);
    AttemptsOnlyGrow(owner, hash, s, m, j);
    assert StillStored(s, del);
    DeliveredAfresh(s.world.db, j, del.worker, slot.profile, report);
    forall profile | ReportAt(j, profile) in s'.world.db.placements ensures IsIntactAt(hash, s', j, profile) {
      assert profile == slot.profile;
    }
    forall e | e in s'.deliveries ensures s'.deliveries[e].job != j {
      if s.deliveries[e].job == j { OnlyDelivery(owner, s, d, e); }
    }
  }

  lemma OnlyRecordCompletes(owner: Owner, hash: Hash, s: Site, m: Move, j: Id) returns (d: Id)
    requires MayMove(owner, s, m) && SiteInv(owner, hash, s)
    requires j in Moved(hash, s, m).world.db.jobs && Moved(hash, s, m).world.db.jobs[j].status == Completed
    requires !(j in s.world.db.jobs && s.world.db.jobs[j].status == Completed)
    ensures m == Record(d) && d in s.deliveries && s.deliveries[d].job == j && s.deliveries[d].put.Some?
    ensures j in s.world.db.jobs
    ensures var del := s.deliveries[d];
            Deliver(s.world.db, j, del.worker, del.put.value.slot.profile, ReportOf(hash, del.put.value)) != s.world.db
  {
    MoveKeepsJobs(owner, hash, s, m);
    assert JobAgrees(Moved(hash, s, m).world.db, j);
    assert j in Moved(hash, s, m).world.db.objects && j !in s.world.db.objects by {
      assert j in s.world.db.jobs ==> JobAgrees(s.world.db, j);
    }
    match m {
      case Other(a) => ReportsStay(s.world, a);
      case Begin(_, k, worker, until) => StartAdds(s.world, k, worker, until);
      case Record(e) =>
        d := e;
        RecordingDoes(hash, s, e);
        var del := s.deliveries[e];
        DeliveredAfresh(s.world.db, del.job, del.worker, del.put.value.slot.profile, ReportOf(hash, del.put.value));
      case _ =>
    }
  }

  lemma MoveKeepsOnce(owner: Owner, hash: Hash, s: Site, m: Move)
    requires MayMove(owner, s, m) && SiteInv(owner, hash, s)
    ensures OnceIsKept(hash, Moved(hash, s, m))
  {
    var s' := Moved(hash, s, m);
    forall d | d in s'.deliveries ensures StillStored(s', s'.deliveries[d]) { MoveKeepsStored(owner, hash, s, m, d); }
    forall j | OnceDone(s', j) ensures IsIntact(hash, s', j) && !AnyoneOn(s', j) {
      if j in s.world.db.jobs && s.world.db.jobs[j].status == Completed {
        OnceStaysDone(owner, hash, s, m, j);
      } else {
        NewlyDone(owner, hash, s, m, j);
      }
    }
  }

  lemma OnceStaysDone(owner: Owner, hash: Hash, s: Site, m: Move, j: Id)
    requires MayMove(owner, s, m) && SiteInv(owner, hash, s) && OnceDone(Moved(hash, s, m), j)
    requires j in s.world.db.jobs && s.world.db.jobs[j].status == Completed
    ensures IsIntact(hash, Moved(hash, s, m), j) && !AnyoneOn(Moved(hash, s, m), j)
  {
    DoneStaysRecorded(owner, hash, s, m, j);
    assert OnceDone(s, j);
    assert IsPending(s, j) ==> AnyoneOn(s, j);
    DoneStaysIntact(owner, hash, s, m, j);
  }

  lemma MoveKeepsInv(owner: Owner, hash: Hash, s: Site, m: Move)
    requires MayMove(owner, s, m) && SiteInv(owner, hash, s)
    ensures SiteInv(owner, hash, Moved(hash, s, m))
  {
    MoveKeepsJobs(owner, hash, s, m);
    MoveKeepsDeliveries(owner, hash, s, m);
    MoveKeepsKeys(owner, hash, s, m);
    MoveKeepsOnce(owner, hash, s, m);
  }
}
