/** What holds over whole histories of a deployment, from empty tables on. */
module MigrationRuns {
  import opened Common
  import opened MigrationModel
  import opened MigrationProtocol
  import opened MigrationSafety
  import opened MigrationLimits
  import opened StorageReads

  lemma InitialHolds(hash: Hash, w: World)
    requires Initial(w)
    ensures Inv(hash, w) && ObjectsPlaced(w.db)
  {
    forall p: Id ensures ActiveItems(w.db, p, w.clock) == {} {}
  }

  /** One step of anything, in any interleaving, keeps every invariant. */
  lemma StepKeepsInvariants(hash: Hash, w: World, a: Action)
    requires Inv(hash, w) && Enabled(hash, w, a)
    ensures Inv(hash, Apply(hash, w, a))
  {
    StepKeepsPlacements(hash, w, a);
    StepKeepsItems(hash, w, a);
    StepKeepsCopied(hash, w, a);
    StepKeepsWorkers(hash, w, a);
    StepKeepsCap(hash, w, a);
    StepKeepsRate(hash, w, a);
  }

  /** So what a handler or a dispatcher does from a world where the invariants hold keeps them. */
  lemma {:induction false} RunKeepsInvariants(hash: Hash, before: World, actions: seq<Action>, after: World)
    requires Inv(hash, before) && Leads(hash, before, actions, after)
    ensures Inv(hash, after)
    decreases |actions|
  {
    if actions != [] {
      assert LeadsFrom(hash, before, actions, after);
      StepKeepsInvariants(hash, before, actions[0]);
      RunKeepsInvariants(hash, Apply(hash, before, actions[0]), actions[1..], after);
    }
  }

  lemma {:induction false} ReachableHolds(hash: Hash, worlds: seq<World>, actions: seq<Action>, n: nat)
    requires Trace(hash, worlds, actions) && n < |worlds|
    ensures Inv(hash, worlds[n]) && ObjectsPlaced(worlds[n].db)
  {
    if n == 0 {
      InitialHolds(hash, worlds[0]);
    } else {
      ReachableHolds(hash, worlds, actions, n - 1);
      assert StepAt(hash, worlds, actions, n - 1);
      StepKeepsInvariants(hash, worlds[n - 1], actions[n - 1]);
      StepKeepsObjectsPlaced(hash, worlds[n - 1], actions[n - 1]);
    }
  }

  lemma StepOfTrace(hash: Hash, worlds: seq<World>, actions: seq<Action>, k: nat)
    requires Trace(hash, worlds, actions) && k < |actions|
    ensures KeepsRows(worlds[k].db, worlds[k + 1].db)
  {
    assert StepAt(hash, worlds, actions, k);
    StepKeepsRows(hash, worlds[k], actions[k]);
  }

  lemma {:induction false} ChainKeepsRows(dbs: seq<Db>)
    requires dbs != [] && forall k | 0 < k < |dbs| :: KeepsRows(dbs[k - 1], dbs[k])
    ensures KeepsRows(dbs[0], dbs[|dbs| - 1])
  {
    if |dbs| > 1 {
      ChainKeepsRows(dbs[..|dbs| - 1]);
      KeepsRowsTransitive(dbs[0], dbs[|dbs| - 2], dbs[|dbs| - 1]);
    }
  }

  lemma RowsAreKept(hash: Hash, worlds: seq<World>, actions: seq<Action>, n: nat, m: nat)
    requires Trace(hash, worlds, actions) && n <= m < |worlds|
    ensures KeepsRows(worlds[n].db, worlds[m].db)
  {
    var dbs := seq(m - n + 1, k requires 0 <= k <= m - n => worlds[n + k].db);
    forall k | 0 < k < |dbs| ensures KeepsRows(dbs[k - 1], dbs[k]) {
      StepOfTrace(hash, worlds, actions, n + k - 1);
    }
    ChainKeepsRows(dbs);
  }

  // ---- Copies ----

  /** The same bytes are still there: the destination holds them at the object's key, with the object's digest. */
  ghost predicate HoldsObject(hash: Hash, w: World, obj: Id, profile: Id) {
    IsAvailable(w.db, obj, profile) && StoreHas(hash, w, obj, profile)
  }

  /**
   Once a migration is completed, the object of every item is available at the
   destination then and ever after, whatever late or repeated deliveries do to its items.
   */
  lemma CompletedItemsAreCopied(hash: Hash, worlds: seq<World>, actions: seq<Action>, n: nat, later: nat, i: Pair)
    requires Trace(hash, worlds, actions) && n <= later < |worlds|
    requires i in worlds[n].db.items && InMigration(worlds[n].db, i, Completed)
    ensures i in worlds[later].db.items && i.0 in worlds[later].db.migrations
    ensures HoldsObject(hash, worlds[later], i.1, worlds[n].db.migrations[i.0].destination)
    ensures worlds[later].db.objects[i.1].digest == worlds[n].db.items[i].digest
  {
    ReachableHolds(hash, worlds, actions, n);
    ReachableHolds(hash, worlds, actions, later);
    RowsAreKept(hash, worlds, actions, n, later);
    var p := Pair(i.1, worlds[n].db.migrations[i.0].destination);
    assert Backed(hash, worlds[later], p, worlds[later].db.placements[p]);
  }

  /** The migration may be created, and the object is at its source and selected, unless all are. */
  predicate IsToMove(w: World, create: Action, obj: Id) {
    && create.CreateMigration? && create.id !in w.db.migrations && create.source != create.destination
    && create.source in w.db.profiles && create.destination in w.db.profiles
    && Pair(obj, create.source) in w.db.placements
    && w.db.placements[Pair(obj, create.source)].state == Available
    && (create.selection == {} || obj in create.selection)
  }

  /** A new migration has an item for each object to be moved. */
  lemma CreatedHasItems(hash: Hash, w: World, create: Action, obj: Id)
    requires IsToMove(w, create, obj)
    ensures var db, i := Apply(hash, w, create).db, Pair(create.id, obj);
            InMigration(db, i, Draft) && db.migrations[create.id].destination == create.destination && i in db.items
  {}

  /**
   Every object that was available at the source when a migration was created, and was
   selected unless all were, is available at the destination once the migration is
   completed, then and ever after, with the digest that it had at the source.
   */
  lemma CompletedIsCopied(hash: Hash, worlds: seq<World>, actions: seq<Action>, start: nat, n: nat, later: nat, obj: Id)
    requires Trace(hash, worlds, actions) && start < n <= later < |worlds|
    requires IsToMove(worlds[start], actions[start], obj)
    requires InMigration(worlds[n].db, Pair(actions[start].id, obj), Completed)
    ensures HoldsObject(hash, worlds[later], obj, actions[start].destination)
    ensures obj in worlds[later].db.objects
    ensures worlds[later].db.objects[obj].digest ==
              worlds[start].db.placements[Pair(obj, actions[start].source)].digest
  {
    var i := Pair(actions[start].id, obj);
    assert StepAt(hash, worlds, actions, start);
    CreatedHasItems(hash, worlds[start], actions[start], obj);
    KeptFrom(hash, worlds, actions, start + 1, n, i);
    CompletedItemsAreCopied(hash, worlds, actions, n, later, i);
    PlacementsAgree(hash, worlds, actions, start, Pair(obj, actions[start].source));
    RowsAreKept(hash, worlds, actions, start, later);
  }

  lemma KeptFrom(hash: Hash, worlds: seq<World>, actions: seq<Action>, n: nat, later: nat, i: Pair)
    requires Trace(hash, worlds, actions) && n <= later < |worlds|
    requires i in worlds[n].db.items && i.0 in worlds[n].db.migrations
    ensures i in worlds[later].db.items && i.0 in worlds[later].db.migrations
    ensures worlds[later].db.migrations[i.0].destination == worlds[n].db.migrations[i.0].destination
  {
    RowsAreKept(hash, worlds, actions, n, later);
  }

  // ---- Reads ----

  ghost predicate ObjectsPlaced(db: Db) {
    forall o | o in db.objects :: IsPlaced(db, o)
  }

  ghost predicate IsPlaced(db: Db, obj: Id) {
    exists profile :: IsAvailable(db, obj, profile)
  }

  lemma NewObjectsAreArtifacts(hash: Hash, w: World, a: Action)
    requires Enabled(hash, w, a)
    ensures Apply(hash, w, a).db.objects.Keys <= w.db.objects.Keys + (if a.Record? then {a.obj} else {})
    ensures a.Record? && a.obj in Apply(hash, w, a).db.objects && a.obj !in w.db.objects ==>
              IsAvailable(Apply(hash, w, a).db, a.obj, a.profile)
  {
    OnlyRecordedObjectsChange(hash, w, a);
  }

  lemma StepKeepsObjectsPlaced(hash: Hash, w: World, a: Action)
    requires ObjectsPlaced(w.db) && Enabled(hash, w, a)
    ensures ObjectsPlaced(Apply(hash, w, a).db)
  {
    var w' := Apply(hash, w, a);
    StepKeepsRows(hash, w, a);
    NewObjectsAreArtifacts(hash, w, a);
    forall o | o in w'.db.objects ensures IsPlaced(w'.db, o) {
      if o !in w.db.objects {
        assert IsAvailable(w'.db, o, a.profile);
      } else {
        assert IsPlaced(w.db, o);
        var profile :| IsAvailable(w.db, o, profile);
        assert IsAvailable(w'.db, o, profile);
      }
    }
  }

  /**
   Whatever happens in between, an object that could be read can still be read while no
   further profile is out of reach, and gives contents of the same digest: the very same
   bytes where the digest function does not collide.
   */
  lemma ReadsSurvive(hash: Hash, worlds: seq<World>, actions: seq<Action>, n: nat, later: nat, obj: Id,
                     preferred: Id, expected: Option<Digest>, outage: map<Id, Answer>, before: Reading, after: Reading)
    requires Trace(hash, worlds, actions) && n <= later < |worlds|
    requires ExpectsRecorded(worlds[n].db, obj, expected) && IsOutage(outage)
    requires CanRead(hash, worlds[n], obj, preferred, expected, outage, before) && before.Read?
    requires CanRead(hash, worlds[later], obj, preferred, expected, outage, after)
    ensures after.Read? && hash(after.bytes) == hash(before.bytes) == worlds[n].db.objects[obj].digest
    ensures (forall x, y :: hash(x) == hash(y) ==> x == y) ==> after.bytes == before.bytes
  {
    ReachableHolds(hash, worlds, actions, n);
    ReachableHolds(hash, worlds, actions, later);
    RowsAreKept(hash, worlds, actions, n, later);
    ReadsRecorded(hash, worlds[n], obj, preferred, expected, outage, before);
    ReadsRecorded(hash, worlds[later], obj, preferred, expected, outage, after);
    var profile :| IsAvailable(worlds[n].db, obj, profile) && profile !in outage;
    assert IsAvailable(worlds[later].db, obj, profile);
  }

  /** In particular there is such a later read. */
  lemma StillReadable(hash: Hash, worlds: seq<World>, actions: seq<Action>, n: nat, later: nat, obj: Id,
                      preferred: Id, expected: Option<Digest>, outage: map<Id, Answer>,
                          before: Reading) returns (after: Reading)
    requires Trace(hash, worlds, actions) && n <= later < |worlds|
    requires ExpectsRecorded(worlds[n].db, obj, expected) && IsOutage(outage)
    requires CanRead(hash, worlds[n], obj, preferred, expected, outage, before) && before.Read?
    ensures CanRead(hash, worlds[later], obj, preferred, expected, outage, after)
    ensures after.Read? && hash(after.bytes) == hash(before.bytes)
  {
    ReachableHolds(hash, worlds, actions, n);
    RowsAreKept(hash, worlds, actions, n, later);
    ReadsRecorded(hash, worlds[n], obj, preferred, expected, outage, before);
    var profile :| IsAvailable(worlds[n].db, obj, profile) && profile !in outage;
    after := ReadingExists(hash, worlds[later], obj, profile, preferred, expected, outage);
    ReadsSurvive(hash, worlds, actions, n, later, obj, preferred, expected, outage, before, after);
  }

  /** All available placements of an object carry the digest of the object, in every reachable world. */
  lemma PlacementsAgree(hash: Hash, worlds: seq<World>, actions: seq<Action>, n: nat, p: Pair)
    requires Trace(hash, worlds, actions) && n < |worlds|
    requires IsAvailable(worlds[n].db, p.0, p.1)
    ensures p.0 in worlds[n].db.objects
    ensures worlds[n].db.placements[p].digest == worlds[n].db.objects[p.0].digest
    ensures StoreHas(hash, worlds[n], p.0, p.1)
  {
    ReachableHolds(hash, worlds, actions, n);
    assert Backed(hash, worlds[n], p, worlds[n].db.placements[p]);
  }

  // ---- Limits ----

  /** Never more items running under a live lease than a destination profile has slots. */
  lemma SlotsAreRespected(hash: Hash, worlds: seq<World>, actions: seq<Action>, n: nat, profile: Id)
    requires Trace(hash, worlds, actions) && n < |worlds|
    ensures |ActiveItems(worlds[n].db, profile, worlds[n].clock)| <= Slots(worlds[0].db, profile)
  {
    ReachableHolds(hash, worlds, actions, n);
    RowsAreKept(hash, worlds, actions, 0, n);
  }

  /** In any window of length T at most T * rate + 1 claims for the profile, over all migrations and dispatchers. */
  lemma StartsAreSpread(hash: Hash, worlds: seq<World>, actions: seq<Action>, n: nat, profile: Id, rate: Rate,
                        from: real, length: real)
    requires Trace(hash, worlds, actions) && n < |worlds|
    requires RateOf(worlds[0].db, profile, rate) && length >= 0.0
    ensures ClaimsInWindow(worlds[n].claims, profile, from, length) as real <= length * rate as real + 1.0
  {
    ReachableHolds(hash, worlds, actions, n);
    RowsAreKept(hash, worlds, actions, 0, n);
    StartRateBound(hash, worlds[n], profile, rate, from, length);
  }

  lemma {:induction false} TerminalIsKept(hash: Hash, worlds: seq<World>, actions: seq<Action>, n: nat, later: nat,
                                          migration: Id)
    requires Trace(hash, worlds, actions) && n <= later < |worlds|
    requires IsTerminal(worlds[n].db, migration)
    ensures IsTerminal(worlds[later].db, migration)
    decreases later
  {
    if n < later {
      TerminalIsKept(hash, worlds, actions, n, later - 1, migration);
      assert StepAt(hash, worlds, actions, later - 1);
      StepKeepsEnded(hash, worlds[later - 1], actions[later - 1], migration);
    }
  }

  /** A completed migration stays completed for ever. */
  lemma {:induction false} CompletedIsFinal(hash: Hash, worlds: seq<World>, actions: seq<Action>, n: nat,
                                            later: nat, migration: Id)
    requires Trace(hash, worlds, actions) && n <= later < |worlds|
    requires migration in worlds[n].db.migrations && worlds[n].db.migrations[migration].state == Completed
    ensures migration in worlds[later].db.migrations && worlds[later].db.migrations[migration].state == Completed
    decreases later
  {
    if n < later {
      CompletedIsFinal(hash, worlds, actions, n, later - 1, migration);
      assert StepAt(hash, worlds, actions, later - 1);
      StepKeepsEnded(hash, worlds[later - 1], actions[later - 1], migration);
    }
  }

  /**
   A cancel that comes between the statements of a resume is overruled when nothing was
   left to copy: the migration ends up completed, though it was canceled last. It happens
   from empty tables on, with a migration that had nothing to copy.
   */
  lemma CanceledMayBeCompleted(hash: Hash, w: World, id: Id, source: Id, destination: Id, now: real)
    returns (canceled: World, end: World)
    requires Initial(w) && source in w.db.profiles && destination in w.db.profiles && source != destination
    requires now <= w.clock
    ensures var create := CreateMigration(id, source, destination, now, {});
            Leads(hash, w, [create, ResumeMigration(id), CancelMigration(id)], canceled)
    ensures InMigration(canceled.db, Pair(id, 0), Canceled)
    ensures Leads(hash, canceled, [ResumeFailedItems(id, now), ResumeToCompletion(id)], end)
    ensures InMigration(end.db, Pair(id, 0), Completed)
  {
    var create := CreateMigration(id, source, destination, now, {});
    var run, created := Take(hash, w, [], w, create);
    assert created.db.items == map[];
    run, canceled := CancelWhileResuming(hash, w, run, created, id);
    end := FinishResuming(hash, canceled, id, now);
  }

  /** The same from any world in which a migration may be resumed and has nothing left to copy. */
  lemma CancelIsOverruled(hash: Hash, w: World, id: Id, now: real) returns (canceled: World, end: World)
    requires MayResume(w.db, id) && AllFinished(w.db, id)
    ensures Leads(hash, w, [ResumeMigration(id), CancelMigration(id)], canceled)
    ensures InMigration(canceled.db, Pair(id, 0), Canceled)
    ensures Leads(hash, canceled, [ResumeFailedItems(id, now), ResumeToCompletion(id)], end)
    ensures InMigration(end.db, Pair(id, 0), Completed)
  {
    var run;
    run, canceled := CancelWhileResuming(hash, w, [], w, id);
    assert run == [ResumeMigration(id), CancelMigration(id)];
    end := FinishResuming(hash, canceled, id, now);
  }

  lemma CancelWhileResuming(hash: Hash, before: World, soFar: seq<Action>, w: World, id: Id)
    returns (run: seq<Action>, canceled: World)
    requires Leads(hash, before, soFar, w) && MayResume(w.db, id)
    ensures run == soFar + [ResumeMigration(id), CancelMigration(id)] && Leads(hash, before, run, canceled)
    ensures InMigration(canceled.db, Pair(id, 0), Canceled) && canceled.db.items == w.db.items
  {
    var resumed;
    run, resumed := Take(hash, before, soFar, w, ResumeMigration(id));
    run, canceled := Take(hash, before, run, resumed, CancelMigration(id));
  }

  lemma FinishResuming(hash: Hash, w: World, id: Id, now: real) returns (end: World)
    requires id in w.db.migrations && AllFinished(w.db, id)
    ensures Leads(hash, w, [ResumeFailedItems(id, now), ResumeToCompletion(id)], end)
    ensures InMigration(end.db, Pair(id, 0), Completed)
  {
    NothingToResume(w.db, id, now);
    var run, reset := Take(hash, w, [], w, ResumeFailedItems(id, now));
    run, end := Take(hash, w, run, reset, ResumeToCompletion(id));
  }

  lemma NothingToResume(db: Db, id: Id, now: real)
    requires AllFinished(db, id)
    ensures AllFinished(ResumeItems(db, id, now), id) && ResumeItems(db, id, now).migrations == db.migrations
  {}

  /** After a migration is completed or canceled, no claim is ever of one of its items. */
  lemma TerminalIsNeverClaimed(hash: Hash, worlds: seq<World>, actions: seq<Action>, n: nat, k: nat, migration: Id)
    requires Trace(hash, worlds, actions) && n <= k < |actions|
    requires IsTerminal(worlds[n].db, migration)
    ensures actions[k].ClaimWork? && actions[k].chosen.Some? ==> actions[k].chosen.value.0 != migration
  {
    TerminalIsKept(hash, worlds, actions, n, k, migration);
    assert StepAt(hash, worlds, actions, k);
    TerminalIsNotClaimed(hash, worlds[k], actions[k], migration);
  }
}
