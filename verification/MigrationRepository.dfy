/** The repository and the queue as they are run: statements that update tables, and loops over them. */
module MigrationRepository {
  import opened Common
  import opened MigrationModel
  import opened MigrationProtocol

  datatype QueryError = NoError | NotFound | Rejected

  // ---- Choosing rows in order ----

  lemma {:induction false} LeastExists(s: set<Id>) returns (least: Id)
    requires s != {}
    ensures least in s && forall q | q in s :: least <= q
  {
    var x :| x in s;
    least := x;
    if s != {x} {
      var other := LeastExists(s - {x});
      if other < x { least := other; }
      forall q | q in s ensures least <= q { assert q == x || q in s - {x}; }
    }
  }

  lemma {:induction false} FirstExists(db: Db, candidates: set<Pair>) returns (first: Pair)
    requires candidates != {} && forall i | i in candidates :: i in db.items
    ensures first in candidates && forall j | j in candidates :: Precedes(db, first, j)
  {
    var x :| x in candidates;
    first := x;
    if candidates != {x} {
      var other := FirstExists(db, candidates - {x});
      if Precedes(db, other, x) { first := other; }
      forall j | j in candidates ensures Precedes(db, first, j) { assert j == x || j in candidates - {x}; }
    }
  }

  /** The first item of the first profile that can claim is the one to claim. */
  lemma ChoiceIsClaim(db: Db, i: Pair, now: real, locked: set<Id>, busy: set<Pair>)
    requires i in db.items && i.0 in db.migrations
    requires CanClaim(db, db.migrations[i.0].destination, now, locked, busy)
    requires i in Candidates(db, db.migrations[i.0].destination, now, busy)
    requires forall j | j in Candidates(db, db.migrations[i.0].destination, now, busy) :: Precedes(db, i, j)
    requires forall q | q in DueProfiles(db, now) && q < db.migrations[i.0].destination ::
               !CanClaim(db, q, now, locked, busy)
    ensures IsChosen(db, i, now, locked, busy)
  {}

  predicate InState(migrations: map<Id, Migration>, id: Id, state: MigrationState) {
    id in migrations && migrations[id].state == state
  }

  /** Every item of the migration is completed or skipped. */
  predicate NoneLeft(items: map<Pair, Item>, id: Id) {
    forall i | i in items && i.0 == id :: items[i].state in {ItemCompleted, ItemSkipped}
  }

  /** Exactly the failed items of the migration are pending again, and due. */
  ghost predicate IsReset(before: map<Pair, Item>, after: map<Pair, Item>, id: Id, now: real) {
    && after.Keys == before.Keys
    && (forall i | i in before && i.0 == id && before[i].state == ItemFailed ::
          after[i] == before[i].(state := ItemPending, availableAt := now, lease := None))
    && (forall i | i in before && !(i.0 == id && before[i].state == ItemFailed) :: after[i] == before[i])
  }

  function ItemOf(work: Option<Work>): Option<Pair> {
    match work case None => None case Some(wk) => Some(Pair(wk.migration, wk.obj))
  }

  class Repository {
    var profiles: map<Id, Profile>
    var objects: map<Id, StoredObject>
    var placements: map<Pair, Placement>
    var migrations: map<Id, Migration>
    var items: map<Pair, Item>
    var dispatch: map<Id, real>

    function Rows(): Db
      reads this
    {
      Db(profiles, objects, placements, migrations, items, dispatch)
    }

    /**
     One claim transaction. `locked` are the profiles whose advisory lock it would get,
     `busy` the items other transactions have locked.
     */
    method ClaimMigrationWork(now: real, lease: real, locked: set<Id>, busy: set<Pair>) returns (work: Option<Work>)
      modifies this
      ensures Claims(old(Rows()), now, lease, locked, busy, ItemOf(work), Rows())
      ensures Rows() == AfterClaim(old(Rows()), now, lease, ItemOf(work))
      ensures work.Some? ==>
                var i := ItemOf(work).value;
                && i in old(items) && i.0 in migrations
                && work.value == WorkFor(old(Rows()), i, old(items)[i].attempts + 1)
                && var m, item := migrations[i.0], old(items)[i];
                   work.value == Work(i.0, i.1, m.source, m.destination, item.key, item.digest, item.size,
                                      item.attempts + 1)
    {
      items := ExpireLeases(Rows(), now).items;
      var chosen := ChooseWork(now, locked, busy);
      if chosen.None? { return None; }
      var i := chosen.value;
      work := Some(WorkFor(Rows(), i, items[i].attempts + 1));
      StartItem(i, migrations[i.0].destination, now, lease);
    }

    /** The loop over the profiles with due items, in order: the first that can claim does. */
    method ChooseWork(now: real, locked: set<Id>, busy: set<Pair>) returns (chosen: Option<Pair>)
      ensures chosen.None? ==> forall q | q in DueProfiles(Rows(), now) :: !CanClaim(Rows(), q, now, locked, busy)
      ensures chosen.Some? ==> IsChosen(Rows(), chosen.value, now, locked, busy)
    {
      var remaining := DueProfiles(Rows(), now);
      while remaining != {}
        invariant remaining <= DueProfiles(Rows(), now)
        invariant forall q | q in DueProfiles(Rows(), now) && q !in remaining :: !CanClaim(Rows(), q, now, locked, busy)
        invariant forall q, r | q in DueProfiles(Rows(), now) && q !in remaining && r in remaining :: q < r
        decreases |remaining|
      {
        ghost var least := LeastExists(remaining);
        var profile :| profile in remaining && forall q | q in remaining :: profile <= q;
        remaining := remaining - {profile};
        chosen := ChooseItem(profile, now, locked, busy);
        if chosen.None? { continue; }
        ChoiceIsClaim(Rows(), chosen.value, now, locked, busy);
        return;
      }
      return None;
    }

    /** The first due item of a profile, if its lock, its slots and its start rate allow one. */
    method ChooseItem(profile: Id, now: real, locked: set<Id>, busy: set<Pair>) returns (chosen: Option<Pair>)
      requires profile in DueProfiles(Rows(), now)
      ensures chosen.Some? <==> CanClaim(Rows(), profile, now, locked, busy)
      ensures chosen.Some? ==>
                && chosen.value in Candidates(Rows(), profile, now, busy)
                && forall j | j in Candidates(Rows(), profile, now, busy) :: Precedes(Rows(), chosen.value, j)
    {
      if profile !in locked { return None; }
      var active := |ActiveItems(Rows(), profile, now)|;
      if active >= Slots(Rows(), profile) { return None; }
      var candidates := if MayStart(Rows(), profile, now) then Candidates(Rows(), profile, now, busy) else {};
      if candidates == {} { return None; }
      ghost var first := FirstExists(Rows(), candidates);
      var i :| i in candidates && forall j | j in candidates :: Precedes(Rows(), i, j);
      return Some(i);
    }

    /** The two statements that record a claim: the item, and the next start of its profile. */
    method StartItem(i: Pair, profile: Id, now: real, lease: real)
      requires i in items && i.0 in migrations && migrations[i.0].destination == profile
      modifies this
      ensures Rows() == MarkClaimed(old(Rows()), i, now, lease)
    {
      var item := items[i];
      items := items[i := item.(state := ItemRunning, attempts := item.attempts + 1, lease := Some(now + lease))];
      if profile in profiles && profiles[profile].rate.Some? {
        dispatch := dispatch[profile := now + 1.0 / profiles[profile].rate.value as real];
      }
    }

    /** The work of an item as its rows are now, and whether it may be carried out. */
    method GetMigrationWork(migration: Id, obj: Id) returns (work: Option<Work>, active: bool)
      requires forall i | i in items :: i.0 in migrations
      ensures var i := Pair(migration, obj);
              && (work.None? <==> i !in items)
              && (work.Some? ==> work.value == WorkFor(Rows(), i, items[i].attempts))
              && (active <==> i in items && items[i].state == ItemRunning && migrations[migration].state == Running)
      ensures work.Some? ==>
                var m, item := migrations[migration], items[Pair(migration, obj)];
                work.value == Work(migration, obj, m.source, m.destination, item.key, item.digest, item.size,
                                   item.attempts)
    {
      var i := Pair(migration, obj);
      if i !in items { return None, false; }
      work := Some(WorkFor(Rows(), i, items[i].attempts));
      active := migrations[migration].state == Running && items[i].state == ItemRunning;
    }

    method DestinationHasCopy(obj: Id, profile: Id) returns (found: bool)
      ensures found <==> DestinationAvailable(Rows(), obj, profile)
      ensures var p := Pair(obj, profile);
              found <==> p in placements && placements[p].state == Available && placements[p].verifiedAt.Some?
    {
      var p := Pair(obj, profile);
      found := p in placements && placements[p].state == Available && placements[p].verifiedAt.Some?;
    }

    method ReleaseMigrationWork(migration: Id, obj: Id, retry: bool, availableAt: real)
      modifies this
      ensures Rows() == Release(old(Rows()), migration, obj, retry, availableAt)
      ensures Rows() == old(Rows()).(items := items, migrations := migrations)
      ensures var i := Pair(migration, obj);
              items == if i !in old(items) then old(items)
                       else old(items)[i := old(items)[i].(state := if retry then ItemPending else ItemFailed,
                                                           lease := None, availableAt := availableAt)]
      ensures migrations == if retry || !InState(old(migrations), migration, Running) then old(migrations)
                            else old(migrations)[migration := old(migrations)[migration].(state := Failed)]
    {
      var i := Pair(migration, obj);
      var state := if retry then ItemPending else ItemFailed;
      if i in items {
        items := items[i := items[i].(state := state, lease := None, availableAt := availableAt)];
      }
      if !retry && migration in migrations && migrations[migration].state == Running {
        migrations := migrations[migration := migrations[migration].(state := Failed)];
      }
    }

    method CompleteMigrationWork(work: Work, digest: Digest, size: nat, skipped: bool, now: real)
      modifies this
      ensures Rows() == Complete(old(Rows()), work, digest, size, skipped, now)
      ensures Rows() == old(Rows()).(placements := placements, items := items, migrations := migrations)
      ensures placements == if skipped then old(placements)
                            else old(placements)[Pair(work.obj, work.destination) :=
                                                   Placement(work.key, Available, digest, size, Some(now))]
      ensures var i := Pair(work.migration, work.obj);
              items == if i !in old(items) then old(items)
                       else old(items)[i := old(items)[i].(state := if skipped then ItemSkipped else ItemCompleted,
                                                           lease := None)]
      ensures migrations == if InState(old(migrations), work.migration, Running) && NoneLeft(items, work.migration)
                            then old(migrations)[work.migration := old(migrations)[work.migration].(state := Completed)]
                            else old(migrations)
    {
      if !skipped {
        var copy := Placement(work.key, Available, digest, size, Some(now));
        placements := placements[Pair(work.obj, work.destination) := copy];
      }
      var i := Pair(work.migration, work.obj);
      if i in items {
        items := items[i := items[i].(state := if skipped then ItemSkipped else ItemCompleted, lease := None)];
      }
      if work.migration in migrations && migrations[work.migration].state == Running
         && forall j | j in items && j.0 == work.migration :: IsFinished(items[j].state) {
        migrations := migrations[work.migration := migrations[work.migration].(state := Completed)];
      }
    }

    /** The draft and its snapshot of the source's available placements are one transaction. */
    method CreateMigration(id: Id, source: Id, destination: Id, selection: set<Id>, now: real)
      returns (error: QueryError)
      modifies this
      ensures Rows() == Create(old(Rows()), id, source, destination, now, selection)
      ensures error == (if MayCreate(old(Rows()), id, source, destination) then NoError else Rejected)
      ensures error == NoError <==>
                id !in old(migrations) && source in profiles && destination in profiles && source != destination
      ensures error != NoError ==> Rows() == old(Rows())
      ensures error == NoError ==> Rows() == old(Rows()).(items := items, migrations := migrations)
      ensures error == NoError ==> migrations == old(migrations)[id := Migration(source, destination, Draft)]
      ensures error == NoError ==> forall o ::
                Pair(id, o) in items <==>
                  || Pair(id, o) in old(items)
                  || (Pair(o, source) in placements && placements[Pair(o, source)].state == Available
                      && (selection == {} || o in selection))
      ensures error == NoError ==> forall o |
                && Pair(o, source) in placements && placements[Pair(o, source)].state == Available
                && (selection == {} || o in selection) ::
                var p := placements[Pair(o, source)];
                items[Pair(id, o)] == Item(ItemPending, 0, now, None, p.key, p.digest, p.size)
      ensures error == NoError ==> forall i: Pair | i.0 != id ::
                (i in items <==> i in old(items)) && (i in old(items) ==> items[i] == old(items)[i])
    {
      if id in migrations || source !in profiles || destination !in profiles
          || source == destination { return Rejected; }
      items := items + Snapshot(Rows(), id, source, now, selection);
      migrations := migrations[id := Migration(source, destination, Draft)];
      return NoError;
    }

    /** Three statements; here nothing comes between them. */
    method ResumeMigration(id: Id, now: real) returns (error: QueryError)
      modifies this
      ensures error == (if MayResume(old(Rows()), id) then NoError else NotFound)
      ensures Rows() == if error != NoError then old(Rows())
                        else ResumeCompletion(ResumeItems(ResumeState(old(Rows()), id), id, now), id)
      ensures error == NoError <==> id in old(migrations) && old(migrations)[id].state in {Draft, Paused, Failed}
      ensures error == NoError ==> Rows() == old(Rows()).(items := items, migrations := migrations)
      ensures error == NoError ==> IsReset(old(items), items, id, now)
      ensures error == NoError ==>
                migrations == old(migrations)[id := old(migrations)[id].(state :=
                                                      if NoneLeft(items, id) then Completed else Running)]
    {
      if id !in migrations || migrations[id].state !in {Draft, Paused, Failed} { return NotFound; }
      migrations := migrations[id := migrations[id].(state := Running)];
      ResetFailedItems(id, now);
      if NoneLeft(items, id) {
        migrations := migrations[id := migrations[id].(state := Completed)];
      }
      return NoError;
    }

    method ResetFailedItems(id: Id, now: real)
      modifies this
      ensures Rows() == ResumeItems(old(Rows()), id, now) && IsReset(old(items), items, id, now)
    {
      items := map i | i in items ::
        if i.0 == id && items[i].state == ItemFailed
        then items[i].(state := ItemPending, availableAt := now, lease := None) else items[i];
    }

    method PauseMigration(id: Id) returns (error: QueryError)
      modifies this
      ensures Rows() == Pause(old(Rows()), id)
      ensures error == NoError <==> id in old(migrations) && old(migrations)[id].state == Running
      ensures Rows() == if error != NoError then old(Rows())
                        else old(Rows()).(migrations := old(migrations)[id := old(migrations)[id].(state := Paused)])
    {
      if id !in migrations || migrations[id].state != Running { return NotFound; }
      migrations := migrations[id := migrations[id].(state := Paused)];
      return NoError;
    }

    method CancelMigration(id: Id) returns (error: QueryError)
      modifies this
      ensures Rows() == Cancel(old(Rows()), id)
      ensures error == NoError <==>
                id in old(migrations) && old(migrations)[id].state in {Draft, Running, Paused, Failed}
      ensures Rows() == if error != NoError then old(Rows())
                        else old(Rows()).(migrations := old(migrations)[id := old(migrations)[id].(state := Canceled)])
    {
      if id !in migrations || migrations[id].state !in {Draft, Running, Paused, Failed} { return NotFound; }
      migrations := migrations[id := migrations[id].(state := Canceled)];
      return NoError;
    }

    /** Upserts the object and its placement, unless the key is another object's. */
    method RecordTemplateArtifact(obj: Id, profile: Id, key: string, digest: Digest, size: nat, now: real)
      returns (error: QueryError)
      modifies this
      ensures Rows() == RecordArtifact(old(Rows()), obj, profile, key, digest, size, now)
      ensures error == (if KeyIsFree(old(Rows()), obj, key) then NoError else Rejected)
      ensures error == Rejected <==> exists o :: o in old(objects) && o != obj && old(objects)[o].key == key
      ensures Rows() == if error != NoError then old(Rows())
                        else old(Rows()).(objects := old(objects)[obj := StoredObject(key, digest, size)],
                                          placements := old(placements)[Pair(obj, profile) :=
                                                          Placement(key, Available, digest, size, Some(now))])
    {
      if exists o | o in objects && o != obj :: objects[o].key == key { return Rejected; }
      objects := objects[obj := StoredObject(key, digest, size)];
      placements := placements[Pair(obj, profile) := Placement(key, Available, digest, size, Some(now))];
      return NoError;
    }
  }
}
