/**
 Storage migrations as rows, and every transaction on them as one atomic function of
 the rows. The clock is an argument: the start time of the transaction.
 */
module MigrationModel {
  import opened Common

  datatype Profile = Profile(concurrency: Option<nat>, rate: Option<Rate>)
  type Rate = r: nat | 0 < r witness 1

  datatype StoredObject = StoredObject(key: string, digest: Digest, size: nat)

  datatype PlacementState = PendingPlacement | Available | FailedPlacement | Deleting
  datatype Placement = Placement(key: string, state: PlacementState, digest: Digest, size: nat,
                                 verifiedAt: Option<real>)

  datatype MigrationState = Draft | Running | Paused | Completed | Canceled | Failed
  datatype Migration = Migration(source: Id, destination: Id, state: MigrationState)

  datatype ItemState = ItemPending | ItemRunning | ItemCompleted | ItemSkipped | ItemFailed
  datatype Item = Item(state: ItemState, attempts: nat, availableAt: real, lease: Option<real>,
                       key: string, digest: Digest, size: nat)

  /** A migration item is keyed by migration and object, a placement by object and profile. */
  datatype Pair = Pair(0: Id, 1: Id)

  datatype Db = Db(
    profiles: map<Id, Profile>,
    objects: map<Id, StoredObject>,
    placements: map<Pair, Placement>,
    migrations: map<Id, Migration>,
    items: map<Pair, Item>,
    dispatch: map<Id, real>)

  /** What a claim hands to a worker, and what a worker loads again from the rows. */
  datatype Work = Work(migration: Id, obj: Id, source: Id, destination: Id, key: string,
                       digest: Digest, size: nat, attempts: nat)

  // ---- Reading the rows ----

  predicate IsAvailable(db: Db, obj: Id, profile: Id) {
    Pair(obj, profile) in db.placements && db.placements[Pair(obj, profile)].state == Available
  }

  /** The worker's question before it copies anything. */
  predicate DestinationAvailable(db: Db, obj: Id, profile: Id) {
    IsAvailable(db, obj, profile) && db.placements[Pair(obj, profile)].verifiedAt.Some?
  }

  predicate InMigration(db: Db, item: Pair, state: MigrationState) {
    item.0 in db.migrations && db.migrations[item.0].state == state
  }

  predicate IsFinished(state: ItemState) {
    state == ItemCompleted || state == ItemSkipped
  }

  predicate AllFinished(db: Db, migration: Id) {
    forall i | i in db.items && i.0 == migration :: IsFinished(db.items[i].state)
  }

  function WorkFor(db: Db, i: Pair, attempts: nat): Work
    requires i in db.items && i.0 in db.migrations
  {
    var m, item := db.migrations[i.0], db.items[i];
    Work(i.0, i.1, m.source, m.destination, item.key, item.digest, item.size, attempts)
  }

  /** The items that hold a slot of a destination profile: running under a lease not expired at `now`. */
  function ActiveItems(db: Db, profile: Id, now: real): set<Pair> {
    set i | i in db.items && i.0 in db.migrations && db.migrations[i.0].destination == profile
            && db.items[i].state == ItemRunning && db.items[i].lease.Some? && db.items[i].lease.value > now
  }

  function Slots(db: Db, profile: Id): nat {
    if profile in db.profiles && db.profiles[profile].concurrency.Some? then db.profiles[profile].concurrency.value
      else 1
  }

  // ---- Claiming ----

  predicate HasExpired(db: Db, i: Pair, now: real) {
    && i in db.items && InMigration(db, i, Running)
    && db.items[i].state == ItemRunning && db.items[i].lease.Some? && db.items[i].lease.value < now
  }

  function ExpireLeases(db: Db, now: real): Db {
    db.(items := map i | i in db.items ::
          if HasExpired(db, i, now) then db.items[i].(state := ItemPending, lease := None, availableAt := now)
          else db.items[i])
  }

  predicate IsDue(db: Db, i: Pair, now: real) {
    && i in db.items && InMigration(db, i, Running)
    && db.items[i].state == ItemPending && db.items[i].availableAt <= now
  }

  function DueProfiles(db: Db, now: real): set<Id> {
    set i | i in db.items && IsDue(db, i, now) :: db.migrations[i.0].destination
  }

  /** The due items of a profile that no other transaction has locked. */
  function Candidates(db: Db, profile: Id, now: real, busy: set<Pair>): set<Pair> {
    set i | i in db.items && IsDue(db, i, now) && db.migrations[i.0].destination == profile && i !in busy
  }

  predicate MayStart(db: Db, profile: Id, now: real) {
    profile in db.dispatch ==> db.dispatch[profile] <= now
  }

  /** The profile's advisory lock was obtained, a slot is free, its start rate allows it and something is due. */
  predicate CanClaim(db: Db, profile: Id, now: real, locked: set<Id>, busy: set<Pair>) {
    && profile in DueProfiles(db, now) && profile in locked
    && |ActiveItems(db, profile, now)| < Slots(db, profile)
    && MayStart(db, profile, now)
    && Candidates(db, profile, now, busy) != {}
  }

  predicate Precedes(db: Db, i: Pair, j: Pair)
    requires i in db.items && j in db.items
  {
    db.items[i].availableAt < db.items[j].availableAt ||
    (db.items[i].availableAt == db.items[j].availableAt && i.1 <= j.1)
  }

  /** One second, divided by the rate. */
  function StartGap(rate: Rate): real {
    1.0 / rate as real
  }

  function MarkClaimed(db: Db, i: Pair, now: real, lease: real): Db
    requires i in db.items && i.0 in db.migrations
  {
    var profile, item := db.migrations[i.0].destination, db.items[i];
    db.(items := db.items[i := item.(state := ItemRunning, attempts := item.attempts + 1, lease := Some(now + lease))],
        dispatch := if profile in db.profiles && db.profiles[profile].rate.Some?
                    then db.dispatch[profile := now + StartGap(db.profiles[profile].rate.value)]
                    else db.dispatch)
  }

  /** The item is first in its profile's order, and its profile the first that can claim at all. */
  ghost predicate IsChosen(db: Db, i: Pair, now: real, locked: set<Id>, busy: set<Pair>) {
    && i in db.items && i.0 in db.migrations
    && var profile := db.migrations[i.0].destination;
       && CanClaim(db, profile, now, locked, busy)
       && i in Candidates(db, profile, now, busy)
       && (forall j | j in Candidates(db, profile, now, busy) :: Precedes(db, i, j))
       && (forall q | q in DueProfiles(db, now) && q < profile :: !CanClaim(db, q, now, locked, busy))
  }

  /** A whole claim transaction: what it may choose, and what it leaves behind. */
  ghost predicate Claims(db: Db, now: real, lease: real, locked: set<Id>, busy: set<Pair>, chosen: Option<Pair>,
                         after: Db) {
    var reset := ExpireLeases(db, now);
    match chosen
    case None =>
      after == reset && forall q | q in DueProfiles(reset, now) :: !CanClaim(reset, q, now, locked, busy)
    case Some(i) =>
      IsChosen(reset, i, now, locked, busy) && after == MarkClaimed(reset, i, now, lease)
  }

  // ---- The other transactions ----

  function WithState(db: Db, id: Id, state: MigrationState): Db
    requires id in db.migrations
  {
    db.(migrations := db.migrations[id := db.migrations[id].(state := state)])
  }

  /** The snapshot of a new migration: the available placements of its source, all of them or a selection. */
  function Snapshot(db: Db, id: Id, source: Id, now: real, selection: set<Id>): map<Pair, Item> {
    map p | p in db.placements && p.1 == source && db.placements[p].state == Available
            && (selection == {} || p.0 in selection)
      :: Pair(id, p.0) := Item(ItemPending, 0, now, None, db.placements[p].key, db.placements[p].digest,
                               db.placements[p].size)
  }

  predicate MayCreate(db: Db, id: Id, source: Id, destination: Id) {
    id !in db.migrations && source in db.profiles && destination in db.profiles && source != destination
  }

  function Create(db: Db, id: Id, source: Id, destination: Id, now: real, selection: set<Id>): Db {
    if MayCreate(db, id, source, destination) then
      db.(migrations := db.migrations[id := Migration(source, destination, Draft)],
          items := db.items + Snapshot(db, id, source, now, selection))
    else db
  }

  /** No guard on the item's state: whatever it was, it becomes pending or failed. */
  function Release(db: Db, migration: Id, obj: Id, retry: bool, availableAt: real): Db {
    var i := Pair(migration, obj);
    var released :=
      if i in db.items then
        db.(items := db.items[i := db.items[i].(state := if retry then ItemPending else ItemFailed,
                                                lease := None, availableAt := availableAt)])
      else db;
    if !retry && InMigration(db, i, Running) then WithState(released, migration, Failed) else released
  }

  function RecordCopy(db: Db, work: Work, digest: Digest, size: nat, now: real): Db {
    var copy := Placement(work.key, Available, digest, size, Some(now));
    db.(placements := db.placements[Pair(work.obj, work.destination) := copy])
  }

  function FinishItem(db: Db, work: Work, skipped: bool): Db {
    var i := Pair(work.migration, work.obj);
    if i in db.items then
      db.(items := db.items[i := db.items[i].(state := if skipped then ItemSkipped else ItemCompleted, lease := None)])
    else db
  }

  /** `only` restricts the update to a migration in that state. */
  function CompleteIfFinished(db: Db, migration: Id, only: Option<MigrationState>): Db {
    if migration in db.migrations && AllFinished(db, migration)
       && (only.Some? ==> db.migrations[migration].state == only.value) then
      WithState(db, migration, Completed)
    else db
  }

  function Complete(db: Db, work: Work, digest: Digest, size: nat, skipped: bool, now: real): Db {
    var recorded := if skipped then db else RecordCopy(db, work, digest, size, now);
    CompleteIfFinished(FinishItem(recorded, work, skipped), work.migration, Some(Running))
  }

  predicate MayResume(db: Db, id: Id) {
    id in db.migrations && db.migrations[id].state in {Draft, Paused, Failed}
  }

  /** Resuming is three statements, each on its own: the migration, its failed items, and completion. */
  function ResumeState(db: Db, id: Id): Db {
    if MayResume(db, id) then WithState(db, id, Running) else db
  }

  function ResumeItems(db: Db, id: Id, now: real): Db {
    db.(items := map i | i in db.items ::
          if i.0 == id && db.items[i].state == ItemFailed
          then db.items[i].(state := ItemPending, availableAt := now, lease := None)
          else db.items[i])
  }

  /** The last statement has no guard on the migration's state. */
  function ResumeCompletion(db: Db, id: Id): Db {
    CompleteIfFinished(db, id, None)
  }

  function Pause(db: Db, id: Id): Db {
    if id in db.migrations && db.migrations[id].state == Running then WithState(db, id, Paused) else db
  }

  function Cancel(db: Db, id: Id): Db {
    if id in db.migrations && db.migrations[id].state in {Draft, Running, Paused, Failed}
    then WithState(db, id, Canceled) else db
  }

  /** Objects have distinct keys; the database refuses a second one with the same key. */
  predicate KeyIsFree(db: Db, obj: Id, key: string) {
    forall o | o in db.objects && o != obj :: db.objects[o].key != key
  }

  /** Recording an artifact that was just stored: its object and its placement, both under one digest. */
  function RecordArtifact(db: Db, obj: Id, profile: Id, key: string, digest: Digest, size: nat, now: real): Db {
    if KeyIsFree(db, obj, key) then
      db.(objects := db.objects[obj := StoredObject(key, digest, size)],
          placements := db.placements[Pair(obj, profile) := Placement(key, Available, digest, size, Some(now))])
    else db
  }
}
