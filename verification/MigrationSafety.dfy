/** Every step keeps the invariants; what that means over whole runs. */
module MigrationSafety {
  import opened Common
  import opened MigrationModel
  import opened MigrationProtocol

  // ---- What no step takes back ----

  /** Objects keep their contents, migrations their ends, items exist for good, available placements stay available. */
  ghost predicate KeepsRows(db: Db, db': Db) {
    && db'.profiles == db.profiles
    && (forall o | o in db.objects ::
          o in db'.objects && db'.objects[o].key == db.objects[o].key && db'.objects[o].digest == db.objects[o].digest)
    && (forall m | m in db.migrations ::
          && m in db'.migrations
          && db'.migrations[m].source == db.migrations[m].source
          && db'.migrations[m].destination == db.migrations[m].destination)
    && (forall i | i in db.items :: i in db'.items)
    && (forall p | p in db.placements && db.placements[p].state == Available ::
          p in db'.placements && db'.placements[p].state == Available)
  }

  ghost predicate StoreHas(hash: Hash, w: World, o: Id, profile: Id) {
    o in w.db.objects &&
    var there := Location(profile, w.db.objects[o].key);
    there in w.stores && hash(w.stores[there]) == w.db.objects[o].digest
  }

  ghost predicate KeepsStores(hash: Hash, w: World, w': World) {
    forall o, profile | StoreHas(hash, w, o, profile) :: StoreHas(hash, w', o, profile)
  }

  lemma ClaimKeepsRows(db: Db, now: real, lease: real, chosen: Option<Pair>)
    ensures KeepsRows(db, AfterClaim(db, now, lease, chosen))
  {}

  lemma CreateKeepsRows(db: Db, id: Id, source: Id, destination: Id, now: real, selection: set<Id>)
    ensures KeepsRows(db, Create(db, id, source, destination, now, selection))
  {}

  lemma ReleaseKeepsRows(db: Db, migration: Id, obj: Id, retry: bool, availableAt: real)
    ensures KeepsRows(db, Release(db, migration, obj, retry, availableAt))
  {}

  lemma KeepsRowsTransitive(a: Db, b: Db, c: Db)
    requires KeepsRows(a, b) && KeepsRows(b, c)
    ensures KeepsRows(a, c)
  {}

  lemma CompletionKeepsRows(db: Db, migration: Id, only: Option<MigrationState>)
    ensures KeepsRows(db, CompleteIfFinished(db, migration, only))
  {}

  lemma FinishKeepsRows(db: Db, work: Work, digest: Digest, size: nat, skipped: bool, now: real)
    ensures KeepsRows(db, FinishItem(db, work, skipped)) && KeepsRows(db, RecordCopy(db, work, digest, size, now))
  {}

  lemma CompleteKeepsRows(db: Db, work: Work, digest: Digest, size: nat, skipped: bool, now: real)
    ensures KeepsRows(db, Complete(db, work, digest, size, skipped, now))
  {
    var recorded := if skipped then db else RecordCopy(db, work, digest, size, now);
    FinishKeepsRows(db, work, digest, size, skipped, now);
    FinishKeepsRows(recorded, work, digest, size, skipped, now);
    var finished := FinishItem(recorded, work, skipped);
    KeepsRowsTransitive(db, recorded, finished);
    CompletionKeepsRows(finished, work.migration, Some(Running));
    KeepsRowsTransitive(db, finished, Complete(db, work, digest, size, skipped, now));
  }

  lemma WithStateKeepsRows(db: Db, id: Id, state: MigrationState)
    requires id in db.migrations
    ensures KeepsRows(db, WithState(db, id, state))
  {}

  lemma OperatorKeepsRows(db: Db, id: Id)
    ensures KeepsRows(db, ResumeState(db, id)) && KeepsRows(db, Pause(db, id)) && KeepsRows(db, Cancel(db, id))
  {
    if id in db.migrations {
      WithStateKeepsRows(db, id, Running);
      WithStateKeepsRows(db, id, Paused);
      WithStateKeepsRows(db, id, Canceled);
    }
  }

  lemma ResumeKeepsRows(db: Db, id: Id, now: real)
    ensures KeepsRows(db, ResumeItems(db, id, now)) && KeepsRows(db, ResumeCompletion(db, id))
  {
    CompletionKeepsRows(db, id, None);
  }

  lemma StepKeepsRows(hash: Hash, w: World, a: Action)
    requires Enabled(hash, w, a)
    ensures KeepsRows(w.db, Apply(hash, w, a).db)
  {
    match a {
      case CreateMigration(id, source, destination, now, selection) =>
        CreateKeepsRows(w.db, id, source, destination, now, selection);
      case ClaimWork(now, lease, _, _, chosen) => ClaimKeepsRows(w.db, now, lease, chosen);
      case ReleaseUnqueued(item, availableAt) => ReleaseKeepsRows(w.db, item.0, item.1, true, availableAt);
      case ReleaseInactive(worker, availableAt) =>
        var work := w.workers[worker].work;
        ReleaseKeepsRows(w.db, work.migration, work.obj, true, availableAt);
      case FinishSkipped(worker, now) => CompleteKeepsRows(w.db, w.workers[worker].work, 0, 0, true, now);
      case FinishCopied(worker, now) =>
        var pc := w.workers[worker];
        CompleteKeepsRows(w.db, pc.work, hash(pc.contents), |pc.contents|, false, now);
      case FailWork(worker, transient, availableAt) =>
        var work := w.workers[worker].work;
        ReleaseKeepsRows(w.db, work.migration, work.obj, transient && work.attempts < MAX_ATTEMPTS, availableAt);
      case ResumeMigration(id) => OperatorKeepsRows(w.db, id);
      case ResumeFailedItems(id, now) => ResumeKeepsRows(w.db, id, now);
      case ResumeToCompletion(id) => ResumeKeepsRows(w.db, id, 0.0);
      case PauseMigration(id) => OperatorKeepsRows(w.db, id);
      case CancelMigration(id) => OperatorKeepsRows(w.db, id);
      case _ =>
    }
  }

  lemma StepKeepsStores(hash: Hash, w: World, a: Action)
    requires Inv(hash, w) && Enabled(hash, w, a)
    ensures KeepsStores(hash, w, Apply(hash, w, a))
  {
    StepKeepsRows(hash, w, a);
  }

  // ---- Placements ----

  lemma CompletionLeaves(db: Db, migration: Id, only: Option<MigrationState>)
    ensures CompleteIfFinished(db, migration, only) ==
              db.(migrations := CompleteIfFinished(db, migration, only).migrations)
  {}

  /** Of the rows, completing touches placements and items, and no more of those than recording and finishing do. */
  lemma CompletePlaces(db: Db, work: Work, digest: Digest, size: nat, skipped: bool, now: real)
    ensures Complete(db, work, digest, size, skipped, now).placements
            == if skipped then db.placements else RecordCopy(db, work, digest, size, now).placements
    ensures Complete(db, work, digest, size, skipped, now).items == FinishItem(db, work, skipped).items
    ensures Complete(db, work, digest, size, skipped, now).objects == db.objects
    ensures Complete(db, work, digest, size, skipped, now).dispatch == db.dispatch
  {
    var recorded := if skipped then db else RecordCopy(db, work, digest, size, now);
    var finished := FinishItem(recorded, work, skipped);
    CompletionLeaves(finished, work.migration, Some(Running));
    assert finished.items == FinishItem(db, work, skipped).items;
  }

  /** A step leaves a placement alone, or it is the copy or artifact just recorded. */
  lemma OnlyRecordedPlacementsChange(hash: Hash, w: World, a: Action, p: Pair)
    requires Enabled(hash, w, a) && p in Apply(hash, w, a).db.placements
    ensures
      || (p in w.db.placements && Apply(hash, w, a).db.placements[p] == w.db.placements[p])
      || (a.FinishCopied? && p == Pair(w.workers[a.worker].work.obj, w.workers[a.worker].work.destination))
      || (a.Record? && p == Pair(a.obj, a.profile))
  {
    if a.FinishSkipped? {
      CompletePlaces(w.db, w.workers[a.worker].work, 0, 0, true, a.now);
    } else if a.FinishCopied? {
      var pc := w.workers[a.worker];
      CompletePlaces(w.db, pc.work, hash(pc.contents), |pc.contents|, false, a.now);
    }
  }

  lemma UntouchedPlacementIsBacked(hash: Hash, w: World, w': World, p: Pair)
    requires p in w.db.placements && Backed(hash, w, p, w.db.placements[p])
    requires KeepsRows(w.db, w'.db) && KeepsStores(hash, w, w')
    ensures Backed(hash, w', p, w.db.placements[p])
  {
    assert StoreHas(hash, w, p.0, p.1);
  }

  /** The copy a worker records is backed: it checked the digest before it stored anything. */
  lemma CopyIsBacked(hash: Hash, w: World, worker: Id, now: real)
    requires Inv(hash, w) && Enabled(hash, w, FinishCopied(worker, now))
    ensures var w' := Apply(hash, w, FinishCopied(worker, now));
            var work := w.workers[worker].work;
            var p := Pair(work.obj, work.destination);
            p in w'.db.placements && Backed(hash, w', p, w'.db.placements[p])
  {
    assert WorkerAgrees(hash, w, w.workers[worker]);
  }

  lemma OnlyRecordedObjectsChange(hash: Hash, w: World, a: Action)
    requires Enabled(hash, w, a)
    ensures Apply(hash, w, a).db.objects
            == if a.Record? && KeyIsFree(w.db, a.obj, a.key)
               then w.db.objects[a.obj := StoredObject(a.key, hash(a.contents), |a.contents|)]
               else w.db.objects
  {
    match a {
      case FinishSkipped(worker, now) => CompletePlaces(w.db, w.workers[worker].work, 0, 0, true, now);
      case FinishCopied(worker, now) =>
        var pc := w.workers[worker];
        CompletePlaces(w.db, pc.work, hash(pc.contents), |pc.contents|, false, now);
      case ClaimWork(now, lease, _, _, chosen) => ClaimKeepsObjects(w.db, now, lease, chosen);
      case ReleaseUnqueued(item, at) => ReleaseKeepsObjects(w.db, item.0, item.1, true, at);
      case ReleaseInactive(worker, at) =>
        ReleaseKeepsObjects(w.db, w.workers[worker].work.migration, w.workers[worker].work.obj, true, at);
      case FailWork(worker, transient, at) =>
        var work := w.workers[worker].work;
        ReleaseKeepsObjects(w.db, work.migration, work.obj, transient && work.attempts < MAX_ATTEMPTS, at);
      case ResumeMigration(id) => OperatorKeepsObjects(w.db, id);
      case ResumeToCompletion(id) => OperatorKeepsObjects(w.db, id);
      case PauseMigration(id) => OperatorKeepsObjects(w.db, id);
      case CancelMigration(id) => OperatorKeepsObjects(w.db, id);
      case _ =>
    }
  }

  lemma ClaimKeepsObjects(db: Db, now: real, lease: real, chosen: Option<Pair>)
    ensures AfterClaim(db, now, lease, chosen).objects == db.objects
  {}

  lemma ReleaseKeepsObjects(db: Db, migration: Id, obj: Id, retry: bool, at: real)
    ensures Release(db, migration, obj, retry, at).objects == db.objects
  {}

  lemma OperatorKeepsObjects(db: Db, id: Id)
    ensures ResumeState(db, id).objects == db.objects && ResumeCompletion(db, id).objects == db.objects
    ensures Pause(db, id).objects == db.objects && Cancel(db, id).objects == db.objects
  {}

  lemma KeysStayDistinct(hash: Hash, w: World, a: Action)
    requires Inv(hash, w) && Enabled(hash, w, a)
    ensures forall o, o' | o in Apply(hash, w, a).db.objects && o' in Apply(hash, w, a).db.objects && o != o' ::
              Apply(hash, w, a).db.objects[o].key != Apply(hash, w, a).db.objects[o'].key
  {
    OnlyRecordedObjectsChange(hash, w, a);
  }

  lemma StepKeepsPlacements(hash: Hash, w: World, a: Action)
    requires Inv(hash, w) && Enabled(hash, w, a)
    ensures PlacementsBacked(hash, Apply(hash, w, a))
  {
    var w' := Apply(hash, w, a);
    StepKeepsRows(hash, w, a);
    StepKeepsStores(hash, w, a);
    KeysStayDistinct(hash, w, a);
    forall p | p in w'.db.placements && w'.db.placements[p].state == Available
      ensures Backed(hash, w', p, w'.db.placements[p])
    {
      OnlyRecordedPlacementsChange(hash, w, a, p);
      if p in w.db.placements && w'.db.placements[p] == w.db.placements[p] {
        UntouchedPlacementIsBacked(hash, w, w', p);
      } else if a.FinishCopied? {
        CopyIsBacked(hash, w, a.worker, a.now);
      }
    }
  }

  // ---- Items ----

  /** No item is new, and none changes what it copies. */
  ghost predicate SameItems(db: Db, db': Db) {
    forall i | i in db'.items ::
        i in db.items && db'.items[i].key == db.items[i].key && db'.items[i].digest == db.items[i].digest
  }

  /** No item becomes finished and no migration completed. */
  ghost predicate NothingDone(db: Db, db': Db) {
    && (forall i | i in db.items && i in db'.items && IsFinished(db'.items[i].state) :: IsFinished(db.items[i].state))
    && (forall m | m in db.migrations && m in db'.migrations && db'.migrations[m].state == Completed ::
          db.migrations[m].state == Completed)
  }

  lemma ClaimIsMild(db: Db, now: real, lease: real, chosen: Option<Pair>)
    ensures SameItems(db, AfterClaim(db, now, lease, chosen)) && NothingDone(db, AfterClaim(db, now, lease, chosen))
  {}

  lemma ReleasedItems(db: Db, migration: Id, obj: Id, retry: bool, at: real)
    ensures SameItems(db, Release(db, migration, obj, retry, at))
  {}

  lemma ReleaseIsMild(db: Db, migration: Id, obj: Id, retry: bool, at: real)
    ensures SameItems(db, Release(db, migration, obj, retry, at))
    ensures NothingDone(db, Release(db, migration, obj, retry, at))
  {
    ReleasedItems(db, migration, obj, retry, at);
  }

  lemma ResumeItemsIsMild(db: Db, id: Id, now: real)
    ensures SameItems(db, ResumeItems(db, id, now)) && NothingDone(db, ResumeItems(db, id, now))
  {}

  lemma StateChangeIsMild(db: Db, id: Id, state: MigrationState)
    requires id in db.migrations && state != Completed
    ensures SameItems(db, WithState(db, id, state)) && NothingDone(db, WithState(db, id, state))
  {}

  lemma OperatorIsMild(db: Db, id: Id)
    ensures SameItems(db, ResumeState(db, id)) && SameItems(db, Pause(db, id)) && SameItems(db, Cancel(db, id))
    ensures NothingDone(db, ResumeState(db, id)) && NothingDone(db, Pause(db, id)) && NothingDone(db, Cancel(db, id))
  {
    if id in db.migrations {
      StateChangeIsMild(db, id, Running);
      StateChangeIsMild(db, id, Paused);
      StateChangeIsMild(db, id, Canceled);
    }
  }

  lemma FinishingActions(db: Db, work: Work, digest: Digest, size: nat, skipped: bool, now: real)
    ensures SameItems(db, Complete(db, work, digest, size, skipped, now))
  {}

  lemma StepKeepsItemData(hash: Hash, w: World, a: Action)
    requires Enabled(hash, w, a) && !a.CreateMigration?
    ensures SameItems(w.db, Apply(hash, w, a).db)
    ensures !a.FinishSkipped? && !a.FinishCopied? && !a.ResumeToCompletion? ==> NothingDone(w.db, Apply(hash, w, a).db)
  {
    match a {
      case ClaimWork(now, lease, _, _, chosen) => ClaimIsMild(w.db, now, lease, chosen);
      case ReleaseUnqueued(item, at) => ReleaseIsMild(w.db, item.0, item.1, true, at);
      case ReleaseInactive(worker, at) =>
        ReleaseIsMild(w.db, w.workers[worker].work.migration, w.workers[worker].work.obj, true, at);
      case FailWork(worker, transient, at) =>
        var work := w.workers[worker].work;
        ReleaseIsMild(w.db, work.migration, work.obj, transient && work.attempts < MAX_ATTEMPTS, at);
      case FinishSkipped(worker, now) => FinishingActions(w.db, w.workers[worker].work, 0, 0, true, now);
      case FinishCopied(worker, now) =>
        var pc := w.workers[worker];
        FinishingActions(w.db, pc.work, hash(pc.contents), |pc.contents|, false, now);
      case ResumeMigration(id) => OperatorIsMild(w.db, id);
      case ResumeFailedItems(id, now) => ResumeItemsIsMild(w.db, id, now);
      case PauseMigration(id) => OperatorIsMild(w.db, id);
      case CancelMigration(id) => OperatorIsMild(w.db, id);
      case _ =>
    }
  }

  /** A new migration's items copy available placements, whose digests are their objects'. */
  lemma SnapshotAgrees(hash: Hash, w: World, a: Action, i: Pair)
    requires Inv(hash, w) && a.CreateMigration? && i in Apply(hash, w, a).db.items
    ensures var db := Apply(hash, w, a).db;
            && i.0 in db.migrations && i.1 in db.objects
            && db.items[i].key == db.objects[i.1].key && db.items[i].digest == db.objects[i.1].digest
            && (i in w.db.items ==> db.items[i] == w.db.items[i] && db.migrations[i.0] == w.db.migrations[i.0])
            && (i !in w.db.items ==> db.items[i].state == ItemPending && db.migrations[i.0].state == Draft)
  {
    if i !in w.db.items {
      assert Backed(hash, w, Pair(i.1, a.source), w.db.placements[Pair(i.1, a.source)]);
    } else {
      assert i !in Snapshot(w.db, a.id, a.source, a.now, a.selection) || a.id in w.db.migrations;
    }
  }

  lemma StepKeepsItems(hash: Hash, w: World, a: Action)
    requires Inv(hash, w) && Enabled(hash, w, a)
    ensures ItemsAgree(Apply(hash, w, a))
  {
    var w' := Apply(hash, w, a);
    StepKeepsRows(hash, w, a);
    if a.CreateMigration? {
      forall i | i in w'.db.items
        ensures i.0 in w'.db.migrations && i.1 in w'.db.objects
        ensures w'.db.items[i].key == w'.db.objects[i.1].key && w'.db.items[i].digest == w'.db.objects[i.1].digest
      {
        SnapshotAgrees(hash, w, a, i);
      }
    } else {
      StepKeepsItemData(hash, w, a);
    }
  }

  // ---- Finished items and completed migrations ----

  ghost predicate CopiedWhenDone(db: Db, i: Pair) {
    i in db.items && i.0 in db.migrations
        && (IsFinished(db.items[i].state) || db.migrations[i.0].state == Completed) ==>
      IsAvailable(db, i.1, db.migrations[i.0].destination)
  }

  /** A completion statement only completes migrations all of whose items are finished, hence copied. */
  lemma CompletionKeepsCopied(db: Db, migration: Id, only: Option<MigrationState>, i: Pair)
    requires forall j :: CopiedWhenDone(db, j)
    ensures CopiedWhenDone(CompleteIfFinished(db, migration, only), i)
  {
    assert CopiedWhenDone(db, i);
  }

  lemma CompleteKeepsCopied(db: Db, work: Work, digest: Digest, size: nat, skipped: bool, now: real, i: Pair)
    requires forall j :: CopiedWhenDone(db, j)
    requires work.migration in db.migrations && db.migrations[work.migration].destination == work.destination
    requires skipped ==> IsAvailable(db, work.obj, work.destination)
    ensures CopiedWhenDone(Complete(db, work, digest, size, skipped, now), i)
  {
    var recorded := if skipped then db else RecordCopy(db, work, digest, size, now);
    var finished := FinishItem(recorded, work, skipped);
    forall j ensures CopiedWhenDone(finished, j) {
      assert CopiedWhenDone(db, j);
    }
    CompletionKeepsCopied(finished, work.migration, Some(Running), i);
  }

  lemma StepKeepsCopied(hash: Hash, w: World, a: Action)
    requires Inv(hash, w) && Enabled(hash, w, a)
    ensures FinishedAreCopied(Apply(hash, w, a))
  {
    var w' := Apply(hash, w, a);
    forall j ensures CopiedWhenDone(w.db, j) {}
    forall i ensures CopiedWhenDone(w'.db, i) {
      assert CopiedWhenDone(w.db, i);
      if a.FinishSkipped? || a.FinishCopied? {
        var pc := w.workers[a.worker];
        assert WorkerAgrees(hash, w, pc);
        if a.FinishSkipped? {
          CompleteKeepsCopied(w.db, pc.work, 0, 0, true, a.now, i);
        } else {
          CompleteKeepsCopied(w.db, pc.work, hash(pc.contents), |pc.contents|, false, a.now, i);
        }
      } else if a.ResumeToCompletion? {
        CompletionKeepsCopied(w.db, a.id, None, i);
      } else {
        OtherStepsKeepCopied(hash, w, a, i);
      }
    }
    assert forall i | i in w'.db.items :: CopiedWhenDone(w'.db, i);
  }

  lemma OtherStepsKeepCopied(hash: Hash, w: World, a: Action, i: Pair)
    requires Inv(hash, w) && Enabled(hash, w, a)
    requires !a.FinishSkipped? && !a.FinishCopied? && !a.ResumeToCompletion?
    requires CopiedWhenDone(w.db, i)
    ensures CopiedWhenDone(Apply(hash, w, a).db, i)
  {
    StepKeepsRows(hash, w, a);
    if i in Apply(hash, w, a).db.items {
      if a.CreateMigration? {
        SnapshotAgrees(hash, w, a, i);
      } else {
        StepKeepsItemData(hash, w, a);
        assert i.0 in w.db.migrations;
      }
    }
  }

  // ---- Workers ----

  lemma UntouchedWorkerAgrees(hash: Hash, w: World, w': World, pc: Pc)
    requires WorkerAgrees(hash, w, pc) && KeepsRows(w.db, w'.db) && KeepsStores(hash, w, w')
    ensures WorkerAgrees(hash, w', pc)
  {
    if pc.Stored? { assert StoreHas(hash, w, pc.work.obj, pc.work.destination); }
  }

  lemma MovedWorkerAgrees(hash: Hash, w: World, a: Action)
    requires Inv(hash, w) && Enabled(hash, w, a)
    requires a.Deliver? || a.CheckDestination? || a.Fetch? || a.Put?
    ensures WorkerAgrees(hash, Apply(hash, w, a), Apply(hash, w, a).workers[a.worker])
  {
    if !a.Deliver? { assert WorkerAgrees(hash, w, w.workers[a.worker]); }
  }

  lemma StepKeepsWorkers(hash: Hash, w: World, a: Action)
    requires Inv(hash, w) && Enabled(hash, w, a)
    ensures WorkersAgree(hash, Apply(hash, w, a))
  {
    var w' := Apply(hash, w, a);
    StepKeepsRows(hash, w, a);
    StepKeepsStores(hash, w, a);
    forall k | k in w'.workers ensures WorkerAgrees(hash, w', w'.workers[k]) {
      if Advances(a) && k == a.worker {
        MovedWorkerAgrees(hash, w, a);
      } else {
        OtherWorkersStay(hash, w, a, k);
        UntouchedWorkerAgrees(hash, w, w', w.workers[k]);
      }
    }
  }

  predicate Advances(a: Action) {
    a.Deliver? || a.CheckDestination? || a.Fetch? || a.Put?
  }

  lemma OtherWorkersStay(hash: Hash, w: World, a: Action, k: Id)
    requires k in Apply(hash, w, a).workers && !(Advances(a) && k == a.worker)
    ensures k in w.workers && Apply(hash, w, a).workers[k] == w.workers[k]
  {}
}
