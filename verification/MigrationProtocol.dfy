/**
 Everything that can happen to the migrations of a deployment, one atomic step at a
 time: dispatchers claim, workers handle deliveries that may be late or repeated,
 operators pause, resume and cancel, other writers store and record artifacts.
 `hash` is the digest function.
 */
module MigrationProtocol {
  import opened Common
  import opened MigrationModel

  /** Where a worker stands in handling one delivery. Its `work` is what it loaded then, and may be stale now. */
  datatype Pc =
    | Inactive(work: Work)
    | Loaded(work: Work)
    | FoundCopy(work: Work)
    | MustCopy(work: Work)
    | Fetched(work: Work, contents: Bytes)
    | Stored(work: Work, contents: Bytes)

  datatype Location = Location(profile: Id, key: string)

  datatype ClaimRecord = ClaimRecord(profile: Id, at: real)

  /** `claims` is history: every claim that was ever committed, in order. */
  datatype World = World(
    db: Db,
    clock: real,
    stores: map<Location, Bytes>,
    workers: map<Id, Pc>,
    claims: seq<ClaimRecord>)

  datatype Action =
    | Tick(to: real)
    | CreateMigration(id: Id, source: Id, destination: Id, now: real, selection: set<Id>)
    | ClaimWork(now: real, lease: real, locked: set<Id>, busy: set<Pair>, chosen: Option<Pair>)
    | ReleaseUnqueued(item: Pair, availableAt: real)
    | Deliver(worker: Id, item: Pair)
    | ReleaseInactive(worker: Id, availableAt: real)
    | CheckDestination(worker: Id)
    | FinishSkipped(worker: Id, now: real)
    | Fetch(worker: Id, contents: Bytes)
    | Put(worker: Id)
    | FinishCopied(worker: Id, now: real)
    | FailWork(worker: Id, transient: bool, availableAt: real)
    | Abandon(worker: Id)
    | ResumeMigration(id: Id)
    | ResumeFailedItems(id: Id, now: real)
    | ResumeToCompletion(id: Id)
    | PauseMigration(id: Id)
    | CancelMigration(id: Id)
    | StoreArtifact(obj: Id, profile: Id, key: string, contents: Bytes)
    | Record(obj: Id, profile: Id, key: string, contents: Bytes, now: real)

  const MAX_ATTEMPTS := 5

  predicate At(w: World, worker: Id) {
    worker in w.workers
  }

  /**
   Other writers store each object under its own key, keep to it, and never change what a
   recorded object contains. This is where reports and templates are assumed to behave.
   */
  ghost predicate Respects(hash: Hash, w: World, obj: Id, key: string, contents: Bytes) {
    KeyIsFree(w.db, obj, key) && RepeatsRecord(hash, w, obj, key, contents)
  }

  ghost predicate RepeatsRecord(hash: Hash, w: World, obj: Id, key: string, contents: Bytes) {
    obj in w.db.objects ==> w.db.objects[obj].key == key && w.db.objects[obj].digest == hash(contents)
  }

  ghost predicate Enabled(hash: Hash, w: World, a: Action) {
    match a
    case Tick(to) => w.clock <= to
    case CreateMigration(_, _, _, now, _) => now <= w.clock
    case ClaimWork(now, lease, locked, busy, chosen) =>
      && now <= w.clock
      && Claims(w.db, now, lease, locked, busy, chosen, AfterClaim(w.db, now, lease, chosen))
    case ReleaseUnqueued(_, _) => true
    case Deliver(worker, item) => !At(w, worker) && item in w.db.items && item.0 in w.db.migrations
    case ReleaseInactive(worker, _) => At(w, worker) && w.workers[worker].Inactive?
    case CheckDestination(worker) => At(w, worker) && w.workers[worker].Loaded?
    case FinishSkipped(worker, now) => At(w, worker) && w.workers[worker].FoundCopy? && now <= w.clock
    case Fetch(worker, contents) =>
      // the backend may return anything; only contents that pass both checks get further
      && At(w, worker) && w.workers[worker].MustCopy?
      && hash(contents) == w.workers[worker].work.digest
      && |contents| == w.workers[worker].work.size
    case Put(worker) => At(w, worker) && w.workers[worker].Fetched?
    case FinishCopied(worker, now) => At(w, worker) && w.workers[worker].Stored? && now <= w.clock
    case FailWork(worker, _, _) => At(w, worker) && !w.workers[worker].Inactive?
    case Abandon(worker) => At(w, worker)
    case StoreArtifact(obj, _, key, contents) => Respects(hash, w, obj, key, contents)
    case Record(obj, profile, key, contents, now) =>
      && RepeatsRecord(hash, w, obj, key, contents) && now <= w.clock
      && Location(profile, key) in w.stores && w.stores[Location(profile, key)] == contents
    case _ => true
  }

  function AfterClaim(db: Db, now: real, lease: real, chosen: Option<Pair>): Db {
    var reset := ExpireLeases(db, now);
    if chosen.Some? && chosen.value in reset.items && chosen.value.0 in reset.migrations
    then MarkClaimed(reset, chosen.value, now, lease) else reset
  }

  function Moves(w: World, worker: Id, pc: Pc): World {
    w.(workers := w.workers[worker := pc])
  }

  function Done(w: World, worker: Id, db: Db): World {
    w.(workers := w.workers - {worker}, db := db)
  }

  function Apply(hash: Hash, w: World, a: Action): World {
    match a
    case Tick(to) => w.(clock := to)
    case CreateMigration(id, source, destination, now, selection) =>
      w.(db := Create(w.db, id, source, destination, now, selection))
    case ClaimWork(now, lease, _, _, chosen) =>
      w.(db := AfterClaim(w.db, now, lease, chosen),
         claims := if chosen.Some? && chosen.value.0 in w.db.migrations
                   then w.claims + [ClaimRecord(w.db.migrations[chosen.value.0].destination, now)] else w.claims)
    case ReleaseUnqueued(item, availableAt) => w.(db := Release(w.db, item.0, item.1, true, availableAt))
    case Deliver(worker, item) =>
      if item in w.db.items && item.0 in w.db.migrations then
        var work := WorkFor(w.db, item, w.db.items[item].attempts);
        Moves(w, worker, if InMigration(w.db, item, Running) && w.db.items[item].state == ItemRunning
                         then Loaded(work) else Inactive(work))
      else w
    case ReleaseInactive(worker, availableAt) =>
      if At(w, worker) then
        var work := w.workers[worker].work;
        Done(w, worker, Release(w.db, work.migration, work.obj, true, availableAt))
      else w
    case CheckDestination(worker) =>
      if At(w, worker) then
        var work := w.workers[worker].work;
        Moves(w, worker, if DestinationAvailable(w.db, work.obj, work.destination) then FoundCopy(work)
              else MustCopy(work))
      else w
    case FinishSkipped(worker, now) =>
      if At(w, worker) then Done(w, worker, Complete(w.db, w.workers[worker].work, 0, 0, true, now)) else w
    case Fetch(worker, contents) =>
      if At(w, worker) then Moves(w, worker, Fetched(w.workers[worker].work, contents)) else w
    case Put(worker) =>
      if At(w, worker) && w.workers[worker].Fetched? then
        var pc := w.workers[worker];
        Moves(w, worker, Stored(pc.work, pc.contents))
          .(stores := w.stores[Location(pc.work.destination, pc.work.key) := pc.contents])
      else w
    case FinishCopied(worker, now) =>
      if At(w, worker) && w.workers[worker].Stored? then
        var pc := w.workers[worker];
        Done(w, worker, Complete(w.db, pc.work, hash(pc.contents), |pc.contents|, false, now))
      else w
    case FailWork(worker, transient, availableAt) =>
      if At(w, worker) then
        var work := w.workers[worker].work;
        Done(w, worker, Release(w.db, work.migration, work.obj, transient && work.attempts < MAX_ATTEMPTS, availableAt))
      else w
    case Abandon(worker) => Done(w, worker, w.db)
    case ResumeMigration(id) => w.(db := ResumeState(w.db, id))
    case ResumeFailedItems(id, now) => w.(db := ResumeItems(w.db, id, now))
    case ResumeToCompletion(id) => w.(db := ResumeCompletion(w.db, id))
    case PauseMigration(id) => w.(db := Pause(w.db, id))
    case CancelMigration(id) => w.(db := Cancel(w.db, id))
    case StoreArtifact(_, profile, key, contents) => w.(stores := w.stores[Location(profile, key) := contents])
    case Record(obj, profile, key, contents, now) =>
      w.(db := RecordArtifact(w.db, obj, profile, key, hash(contents), |contents|, now))
  }

  ghost predicate Initial(w: World) {
    && w.db.objects == map[] && w.db.placements == map[] && w.db.migrations == map[] && w.db.items == map[]
    && w.db.dispatch == map[] && w.stores == map[] && w.workers == map[] && w.claims == []
  }

  ghost predicate StepAt(hash: Hash, worlds: seq<World>, actions: seq<Action>, i: nat)
    requires i < |actions| && |worlds| == |actions| + 1
  {
    Enabled(hash, worlds[i], actions[i]) && worlds[i + 1] == Apply(hash, worlds[i], actions[i])
  }

  /** A history: the worlds passed through, and the actions between them. */
  ghost predicate Trace(hash: Hash, worlds: seq<World>, actions: seq<Action>) {
    && |worlds| == |actions| + 1
    && Initial(worlds[0])
    && (forall i | 0 <= i < |actions| :: StepAt(hash, worlds, actions, i))
  }

  // ---- Runs ----

  /** `after` is where the actions lead from `before`, each of them enabled when it is taken. */
  ghost predicate Leads(hash: Hash, before: World, actions: seq<Action>, after: World)
    decreases |actions|, 1
  {
    if actions == [] then after == before else LeadsFrom(hash, before, actions, after)
  }

  ghost predicate LeadsFrom(hash: Hash, before: World, actions: seq<Action>, after: World)
    requires actions != []
    decreases |actions|, 0
  {
    Enabled(hash, before, actions[0]) && Leads(hash, Apply(hash, before, actions[0]), actions[1..], after)
  }

  lemma {:induction false} LeadsOn(hash: Hash, before: World, actions: seq<Action>, middle: World, next: Action)
    requires Leads(hash, before, actions, middle) && Enabled(hash, middle, next)
    ensures Leads(hash, before, actions + [next], Apply(hash, middle, next))
    decreases |actions|
  {
    if actions == [] {
      assert [next][1..] == [];
      assert LeadsFrom(hash, before, [next], Apply(hash, before, next));
    } else {
      assert LeadsFrom(hash, before, actions, middle);
      LeadsOn(hash, Apply(hash, before, actions[0]), actions[1..], middle, next);
      assert (actions + [next])[1..] == actions[1..] + [next];
      assert LeadsFrom(hash, before, actions + [next], Apply(hash, middle, next));
    }
  }

  /** One more step at the end of a run. */
  lemma Take(hash: Hash, before: World, run: seq<Action>, middle: World, next: Action)
    returns (run': seq<Action>, after: World)
    requires Leads(hash, before, run, middle) && Enabled(hash, middle, next)
    ensures Leads(hash, before, run', after) && after == Apply(hash, middle, next) && run' == run + [next]
  {
    LeadsOn(hash, before, run, middle, next);
    run', after := run + [next], Apply(hash, middle, next);
  }

  // ---- Invariants ----

  /** Every available placement is backed: its store holds, at its key, bytes with the object's digest. */
  ghost predicate PlacementsBacked(hash: Hash, w: World) {
    && (forall o, o' | o in w.db.objects && o' in w.db.objects && o != o' ::
        w.db.objects[o].key != w.db.objects[o'].key)
    && (forall p | p in w.db.placements && w.db.placements[p].state == Available ::
          Backed(hash, w, p, w.db.placements[p]))
  }

  ghost predicate Backed(hash: Hash, w: World, p: Pair, placement: Placement) {
    && p.0 in w.db.objects
    && placement.digest == w.db.objects[p.0].digest
    && placement.key == w.db.objects[p.0].key
    && placement.verifiedAt.Some?
    && Location(p.1, placement.key) in w.stores
    && hash(w.stores[Location(p.1, placement.key)]) == placement.digest
  }

  /** What an item copies is what its object is recorded to be. */
  ghost predicate ItemsAgree(w: World) {
    forall i | i in w.db.items ::
      && i.0 in w.db.migrations && i.1 in w.db.objects
      && w.db.items[i].key == w.db.objects[i.1].key
      && w.db.items[i].digest == w.db.objects[i.1].digest
  }

  ghost predicate FinishedAreCopied(w: World) {
    forall i | i in w.db.items && i.0 in w.db.migrations
               && (IsFinished(w.db.items[i].state) || w.db.migrations[i.0].state == Completed) ::
      IsAvailable(w.db, i.1, w.db.migrations[i.0].destination)
  }

  /** A worker's view is of an existing item, and what it holds in its hands has passed the checks. */
  ghost predicate WorkerAgrees(hash: Hash, w: World, pc: Pc) {
    var work := pc.work;
    var i := Pair(work.migration, work.obj);
    && i in w.db.items && i.0 in w.db.migrations && i.1 in w.db.objects
    && w.db.migrations[i.0].destination == work.destination
    && work.key == w.db.objects[work.obj].key
    && work.digest == w.db.objects[work.obj].digest
    && (pc.FoundCopy? ==> IsAvailable(w.db, work.obj, work.destination))
    && (pc.Fetched? || pc.Stored? ==> hash(pc.contents) == work.digest)
    && (pc.Stored? ==>
          var there := Location(work.destination, work.key);
          there in w.stores && hash(w.stores[there]) == work.digest)
  }

  ghost predicate WorkersAgree(hash: Hash, w: World) {
    forall k | k in w.workers :: WorkerAgrees(hash, w, w.workers[k])
  }

  ghost predicate CapHeld(w: World) {
    forall p: Id :: |ActiveItems(w.db, p, w.clock)| <= Slots(w.db, p)
  }

  ghost predicate RateOf(db: Db, p: Id, rate: Rate) {
    p in db.profiles && db.profiles[p].rate == Some(rate)
  }

  /** Claims for a rate-limited profile are at least a gap apart, and the next is not due before another gap. */
  ghost predicate Spaced(db: Db, claims: seq<ClaimRecord>, p: Id, gap: real) {
    && (forall i, j | 0 <= i < j < |claims| && claims[i].profile == p && claims[j].profile == p ::
          claims[j].at >= claims[i].at + gap)
    && (forall i | 0 <= i < |claims| && claims[i].profile == p ::
          p in db.dispatch && db.dispatch[p] >= claims[i].at + gap)
  }

  ghost predicate RateHeld(w: World) {
    forall p, rate | RateOf(w.db, p, rate) :: Spaced(w.db, w.claims, p, StartGap(rate))
  }

  ghost predicate Inv(hash: Hash, w: World) {
    PlacementsBacked(hash, w) && ItemsAgree(w) && FinishedAreCopied(w) && WorkersAgree(hash, w) && CapHeld(w)
        && RateHeld(w)
  }
}
