/** One delivery handled, and one round of dispatching, as sequences of protocol steps. */
module MigrationWorker {
  import opened Common
  import opened MigrationModel
  import opened MigrationProtocol
  import opened MigrationRepository
  import opened StorageReads

  /** What the world around one delivery answers: clock, profiles, the source store and the destination store. */
  datatype Surroundings = Surroundings(now: real, availableAt: real, resolvable: set<Id>, source: Answer,
                                       put: PutAnswer)

  /** A put that answers has stored the contents under the key it was given, whatever it claims. */
  datatype PutAnswer = PutFailed | PutAs(key: string, digest: Digest)

  datatype Handling = ItemUnknown | NotRunning | AlreadyCopied | Copied | Failing(transient: bool)

  /** Which way the handler goes, read off the rows and the answers. */
  function Outcome(hash: Hash, db: Db, item: Pair, env: Surroundings): Handling
    requires forall i | i in db.items :: i.0 in db.migrations
  {
    if item !in db.items then ItemUnknown
    else if !(InMigration(db, item, Running) && db.items[item].state == ItemRunning) then NotRunning
    else
      var work := WorkFor(db, item, db.items[item].attempts);
      if DestinationAvailable(db, work.obj, work.destination) then AlreadyCopied else CopyOutcome(hash, work, env)
  }

  /** A copy is made only of contents with the expected digest and size, and only if the destination confirms them. */
  function CopyOutcome(hash: Hash, work: Work, env: Surroundings): (h: Handling)
    ensures h.Copied? || h.Failing?
    ensures h.Copied? <==> && {work.source, work.destination} <= env.resolvable
                           && env.source.Contents? && hash(env.source.bytes) == work.digest
                           && |env.source.bytes| == work.size
                           && env.put == PutAs(work.key, work.digest)
    ensures h == Failing(true) <==> && {work.source, work.destination} <= env.resolvable
                                    && (env.source.Contents? ==>
                                          && env.put.PutFailed? && hash(env.source.bytes) == work.digest
                                          && |env.source.bytes| == work.size)
  {
    if !(work.source in env.resolvable && work.destination in env.resolvable) then Failing(false)
    else if !env.source.Contents? then Failing(true)
    else if hash(env.source.bytes) != work.digest || |env.source.bytes| != work.size then Failing(false)
    else if env.put.PutFailed? then Failing(true)
    else if env.put != PutAs(work.key, work.digest) then Failing(false)
    else Copied
  }

  /** The rows that each outcome leaves behind. */
  function HandledRows(db: Db, item: Pair, env: Surroundings, handling: Handling): Db
    requires !handling.ItemUnknown? ==> item in db.items && item.0 in db.migrations
    requires handling.Copied? ==> env.source.Contents?
  {
    match handling
    case ItemUnknown => db
    case NotRunning => Release(db, item.0, item.1, true, env.availableAt)
    case AlreadyCopied => Complete(db, WorkFor(db, item, db.items[item].attempts), 0, 0, true, env.now)
    case Copied =>
      Complete(db, WorkFor(db, item, db.items[item].attempts), db.items[item].digest, |env.source.bytes|, false,
               env.now)
    case Failing(transient) =>
      Release(db, item.0, item.1, transient && db.items[item].attempts < MAX_ATTEMPTS, env.availableAt)
  }

  lemma ActiveOutcome(hash: Hash, db: Db, item: Pair, env: Surroundings)
    requires forall i | i in db.items :: i.0 in db.migrations
    requires item in db.items && InMigration(db, item, Running) && db.items[item].state == ItemRunning
    ensures var work := WorkFor(db, item, db.items[item].attempts);
            && work.migration == item.0 && work.obj == item.1
            && Outcome(hash, db, item, env)
               == if DestinationAvailable(db, work.obj, work.destination) then AlreadyCopied
                  else CopyOutcome(hash, work, env)
  {}

  /** When the handler finds nothing to do, and when it finds the copy already there. */
  lemma OutcomeMeans(hash: Hash, db: Db, item: Pair, env: Surroundings)
    requires forall i | i in db.items :: i.0 in db.migrations
    ensures var h := Outcome(hash, db, item, env);
            && (h.ItemUnknown? <==> item !in db.items)
            && (item in db.items ==>
                  var running := db.items[item].state == ItemRunning && db.migrations[item.0].state == Running;
                  var copy := Pair(item.1, db.migrations[item.0].destination);
                  var copied := copy in db.placements && db.placements[copy].state == Available
                                && db.placements[copy].verifiedAt.Some?;
                  && (h.NotRunning? <==> !running)
                  && (h.AlreadyCopied? <==> running && copied)
                  && (h.Copied? || h.Failing? <==> running && !copied))
  {}

  lemma ReleasedMeans(db: Db, item: Pair, retry: bool, availableAt: real)
    requires item in db.items && item.0 in db.migrations
    ensures var after, m := Release(db, item.0, item.1, retry, availableAt), db.migrations[item.0];
            && after.placements == db.placements
            && after.items == db.items[item := db.items[item].(state := if retry then ItemPending else ItemFailed,
                                                               lease := None, availableAt := availableAt)]
            && after.migrations == db.migrations[item.0 := m.(state := if m.state == Running && !retry then Failed
                                                                       else m.state)]
  {
    assert db.migrations == db.migrations[item.0 := db.migrations[item.0]];
  }

  lemma FinishedMeans(db: Db, work: Work, digest: Digest, size: nat, skipped: bool, now: real)
    requires var i := Pair(work.migration, work.obj); i in db.items && i.0 in db.migrations
    ensures var i, after := Pair(work.migration, work.obj), Complete(db, work, digest, size, skipped, now);
            var m := db.migrations[work.migration];
            && after.placements == (if skipped then db.placements
                 else db.placements[Pair(work.obj, work.destination) :=
                                      Placement(work.key, Available, digest, size, Some(now))])
            && after.items == db.items[i := db.items[i].(state := if skipped then ItemSkipped else ItemCompleted,
                                                         lease := None)]
            && after.migrations == db.migrations[work.migration := m.(state :=
                 if m.state == Running && NoneLeft(after.items, work.migration) then Completed else m.state)]
  {
    assert db.migrations == db.migrations[work.migration := db.migrations[work.migration]];
  }

  /** How a handled item ends up. */
  function EndOf(h: Handling, attempts: nat): ItemState {
    match h
    case AlreadyCopied => ItemSkipped
    case Copied => ItemCompleted
    case Failing(transient) => if transient && attempts < 5 then ItemPending else ItemFailed
    case _ => ItemPending
  }

  /**
   What is left of a handled item: finished once its copy is there, pending for another
   attempt after a passing failure while attempts are left, and failed otherwise; never
   under a lease. Only a copy that was made is recorded at the destination.
   */
  lemma HandledMeans(hash: Hash, db: Db, item: Pair, env: Surroundings)
    requires forall i | i in db.items :: i.0 in db.migrations
    requires item in db.items
    ensures var h := Outcome(hash, db, item, env);
            var after, was, m := HandledRows(db, item, env, h), db.items[item], db.migrations[item.0];
            && item in after.items && after.items == db.items[item := after.items[item]]
            && after.items[item].lease.None? && after.items[item].attempts == was.attempts
            && after.items[item].state == EndOf(h, was.attempts)
            && after.placements == (if !h.Copied? then db.placements
                 else db.placements[Pair(item.1, m.destination) :=
                        Placement(was.key, Available, was.digest, was.size, Some(env.now))])
            && after.migrations == db.migrations[item.0 := m.(state :=
                 if m.state != Running then m.state
                 else if EndOf(h, was.attempts) == ItemFailed then Failed
                 else if (h.Copied? || h.AlreadyCopied?) && NoneLeft(after.items, item.0) then Completed
                 else Running)]
  {
    var h, attempts := Outcome(hash, db, item, env), db.items[item].attempts;
    var work := WorkFor(db, item, attempts);
    OutcomeMeans(hash, db, item, env);
    match h {
      case ItemUnknown =>
      case NotRunning => ReleasedMeans(db, item, true, env.availableAt);
      case AlreadyCopied => FinishedMeans(db, work, 0, 0, true, env.now);
      case Copied => FinishedMeans(db, work, db.items[item].digest, |env.source.bytes|, false, env.now);
      case Failing(transient) =>
        ReleasedMeans(db, item, transient && attempts < MAX_ATTEMPTS, env.availableAt);
    }
  }

  class Worker {
    const repo: Repository
    var stores: map<Location, Bytes>

    constructor (repo: Repository)
      ensures this.repo == repo && stores == map[]
    {
      this.repo := repo;
      stores := map[];
    }

    /**
     Handling one delivery does what `HandledRows` says, and is a run of the protocol
     for this worker, so what holds of all runs holds of it in any interleaving.
     */
    method HandleMigration(hash: Hash, worker: Id, item: Pair, env: Surroundings, ghost before: World)
      returns (handling: Handling, ghost run: seq<Action>, ghost after: World)
      requires before.db == repo.Rows() && before.stores == stores && worker !in before.workers
      requires env.now <= before.clock
      requires forall i | i in repo.items :: i.0 in repo.migrations
      modifies this, repo
      ensures handling == Outcome(hash, old(repo.Rows()), item, env)
      ensures repo.Rows() == HandledRows(old(repo.Rows()), item, env, handling)
      ensures handling.Copied? ==>
                var work := WorkFor(old(repo.Rows()), item, old(repo.items)[item].attempts);
                stores == old(stores)[Location(work.destination, work.key) := env.source.bytes]
      ensures Leads(hash, before, run, after)
      ensures after.db == repo.Rows() && after.stores == stores && after.workers == before.workers
    {
      if item !in repo.items { return ItemUnknown, [], before; }
      var work, active;
      work, active, run, after := LookUp(hash, worker, item, before);
      if !active {
        run, after := GiveBack(hash, worker, work, env, before, run, after);
        return NotRunning, run, after;
      }
      ActiveOutcome(hash, repo.Rows(), item, env);
      handling, run, after := CarryOut(hash, worker, work, env, before, run, after);
    }

    method LookUp(hash: Hash, worker: Id, item: Pair, ghost before: World)
      returns (work: Work, active: bool, ghost run: seq<Action>, ghost after: World)
      requires before.db == repo.Rows() && worker !in before.workers && item in repo.items
      requires forall i | i in repo.items :: i.0 in repo.migrations
      ensures work == WorkFor(repo.Rows(), item, repo.items[item].attempts)
      ensures active <==> InMigration(repo.Rows(), item, Running) && repo.items[item].state == ItemRunning
      ensures Leads(hash, before, run, after)
      ensures after.db == before.db && after.stores == before.stores && after.clock == before.clock
      ensures worker in after.workers && after.workers[worker] == (if active then Loaded(work) else Inactive(work))
      ensures after.workers - {worker} == before.workers
    {
      var found;
      found, active := repo.GetMigrationWork(item.0, item.1);
      work := found.value;
      run, after := Take(hash, before, [], before, Deliver(worker, item));
    }

    method GiveBack(hash: Hash, worker: Id, work: Work, env: Surroundings, ghost before: World,
                    ghost soFar: seq<Action>, ghost middle: World)
      returns (ghost run: seq<Action>, ghost after: World)
      requires Leads(hash, before, soFar, middle) && middle.db == repo.Rows()
      requires worker in middle.workers && middle.workers[worker] == Inactive(work)
      modifies repo
      ensures repo.Rows() == Release(old(repo.Rows()), work.migration, work.obj, true, env.availableAt)
      ensures Leads(hash, before, run, after) && after.db == repo.Rows() && after.stores == middle.stores
      ensures after.workers == middle.workers - {worker}
    {
      repo.ReleaseMigrationWork(work.migration, work.obj, true, env.availableAt);
      run, after := Take(hash, before, soFar, middle, ReleaseInactive(worker, env.availableAt));
    }

    method CarryOut(hash: Hash, worker: Id, work: Work, env: Surroundings, ghost before: World,
                    ghost soFar: seq<Action>, ghost middle: World)
      returns (handling: Handling, ghost run: seq<Action>, ghost after: World)
      requires Leads(hash, before, soFar, middle) && env.now <= middle.clock
      requires middle.db == repo.Rows() && middle.stores == stores
      requires worker in middle.workers && middle.workers[worker] == Loaded(work)
      modifies this, repo
      ensures handling == if DestinationAvailable(old(repo.Rows()), work.obj, work.destination) then AlreadyCopied
                          else CopyOutcome(hash, work, env)
      ensures handling.AlreadyCopied? ==> repo.Rows() == Complete(old(repo.Rows()), work, 0, 0, true, env.now)
      ensures handling.Failing? ==>
        repo.Rows() == Release(old(repo.Rows()), work.migration, work.obj,
                               handling.transient && work.attempts < MAX_ATTEMPTS, env.availableAt)
      ensures handling.Copied? ==>
        && repo.Rows() == Complete(old(repo.Rows()), work, work.digest, |env.source.bytes|, false, env.now)
        && stores == old(stores)[Location(work.destination, work.key) := env.source.bytes]
      ensures Leads(hash, before, run, after)
      ensures after.db == repo.Rows() && after.stores == stores && after.workers == middle.workers - {worker}
    {
      var available := repo.DestinationHasCopy(work.obj, work.destination);
      run, after := Take(hash, before, soFar, middle, CheckDestination(worker));
      if available {
        repo.CompleteMigrationWork(work, 0, 0, true, env.now);
        run, after := Take(hash, before, run, after, FinishSkipped(worker, env.now));
        return AlreadyCopied, run, after;
      }
      handling, run, after := Copy(hash, worker, work, env, before, run, after);
    }

    method Copy(hash: Hash, worker: Id, work: Work, env: Surroundings, ghost before: World,
                ghost soFar: seq<Action>, ghost middle: World)
      returns (handling: Handling, ghost run: seq<Action>, ghost after: World)
      requires Leads(hash, before, soFar, middle) && env.now <= middle.clock
      requires middle.db == repo.Rows() && middle.stores == stores
      requires worker in middle.workers && middle.workers[worker] == MustCopy(work)
      modifies this, repo
      ensures handling == CopyOutcome(hash, work, env)
      ensures handling.Failing? ==>
        repo.Rows() == Release(old(repo.Rows()), work.migration, work.obj,
                               handling.transient && work.attempts < MAX_ATTEMPTS, env.availableAt)
      ensures handling.Copied? ==>
        && repo.Rows() == Complete(old(repo.Rows()), work, work.digest, |env.source.bytes|, false, env.now)
        && stores == old(stores)[Location(work.destination, work.key) := env.source.bytes]
      ensures Leads(hash, before, run, after)
      ensures after.db == repo.Rows() && after.stores == stores && after.workers == middle.workers - {worker}
    {
      run, after := soFar, middle;
      if work.source !in env.resolvable || work.destination !in env.resolvable {
        run, after := Fail(hash, worker, work, false, env, before, run, after);
        return Failing(false), run, after;
      }
      if !env.source.Contents? {
        run, after := Fail(hash, worker, work, true, env, before, run, after);
        return Failing(true), run, after;
      }
      var contents := env.source.bytes;
      var digest := hash(contents);
      if digest != work.digest || |contents| != work.size {
        run, after := Fail(hash, worker, work, false, env, before, run, after);
        return Failing(false), run, after;
      }
      run, after := Take(hash, before, run, after, Fetch(worker, contents));
      handling, run, after := StoreCopy(hash, worker, work, contents, env, before, run, after);
    }

    /** Stores contents that have passed the checks, and records them if the destination confirms key and digest. */
    method StoreCopy(hash: Hash, worker: Id, work: Work, contents: Bytes, env: Surroundings, ghost before: World,
                     ghost soFar: seq<Action>, ghost middle: World)
      returns (handling: Handling, ghost run: seq<Action>, ghost after: World)
      requires Leads(hash, before, soFar, middle) && env.now <= middle.clock
      requires middle.db == repo.Rows() && middle.stores == stores && hash(contents) == work.digest
      requires worker in middle.workers && middle.workers[worker] == Fetched(work, contents)
      modifies this, repo
      ensures handling == if env.put.PutFailed? then Failing(true)
                          else if env.put == PutAs(work.key, work.digest) then Copied else Failing(false)
      ensures handling.Failing? ==>
        repo.Rows() == Release(old(repo.Rows()), work.migration, work.obj,
                               handling.transient && work.attempts < MAX_ATTEMPTS, env.availableAt)
      ensures handling.Copied? ==>
        && repo.Rows() == Complete(old(repo.Rows()), work, work.digest, |contents|, false, env.now)
        && stores == old(stores)[Location(work.destination, work.key) := contents]
      ensures Leads(hash, before, run, after)
      ensures after.db == repo.Rows() && after.stores == stores && after.workers == middle.workers - {worker}
    {
      run, after := soFar, middle;
      if env.put.PutFailed? {
        run, after := Fail(hash, worker, work, true, env, before, run, after);
        return Failing(true), run, after;
      }
      var digest := hash(contents);
      stores := stores[Location(work.destination, work.key) := contents];
      run, after := Take(hash, before, run, after, Put(worker));
      if env.put.key != work.key || env.put.digest != digest {
        run, after := Fail(hash, worker, work, false, env, before, run, after);
        return Failing(false), run, after;
      }
      repo.CompleteMigrationWork(work, digest, |contents|, false, env.now);
      run, after := Take(hash, before, run, after, FinishCopied(worker, env.now));
      return Copied, run, after;
    }

    /** A failure is retried if it is transient and attempts are left. */
    method Fail(hash: Hash, worker: Id, work: Work, transient: bool, env: Surroundings,
                ghost before: World, ghost soFar: seq<Action>, ghost middle: World)
      returns (ghost run: seq<Action>, ghost after: World)
      requires Leads(hash, before, soFar, middle) && middle.db == repo.Rows()
      requires worker in middle.workers && middle.workers[worker].work == work && !middle.workers[worker].Inactive?
      modifies repo
      ensures repo.Rows() == Release(old(repo.Rows()), work.migration, work.obj,
                                     transient && work.attempts < MAX_ATTEMPTS, env.availableAt)
      ensures Leads(hash, before, run, after) && after.db == repo.Rows() && after.stores == middle.stores
      ensures after.workers == middle.workers - {worker}
    {
      var retry := transient && work.attempts < MAX_ATTEMPTS;
      repo.ReleaseMigrationWork(work.migration, work.obj, retry, env.availableAt);
      run, after := Take(hash, before, soFar, middle, FailWork(worker, transient, env.availableAt));
    }
  }
}
