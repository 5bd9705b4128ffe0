/** What a claim does, said of the rows before and after it. */
module MigrationClaims {
  import opened Common
  import opened MigrationModel

  /** A lease ran out before anyone finished or gave back the item. */
  predicate IsLost(db: Db, i: Pair, now: real) {
    && i in db.items && db.items[i].state == ItemRunning
    && db.items[i].lease.Some? && db.items[i].lease.value < now
  }

  /** The item waits for a worker, or has lost its worker, and its migration is running. */
  predicate IsReady(db: Db, i: Pair, now: real) {
    && i in db.items && i.0 in db.migrations && db.migrations[i.0].state == Running
    && ((db.items[i].state == ItemPending && db.items[i].availableAt <= now) || IsLost(db, i, now))
  }

  /** Since when; a lost item is due again only now. */
  function ReadySince(db: Db, i: Pair, now: real): real
    requires i in db.items
  {
    if IsLost(db, i, now) then now else db.items[i].availableAt
  }

  /** The items of all migrations to a profile that are being copied under a lease. */
  function BeingCopied(db: Db, profile: Id, now: real): set<Pair> {
    set i | i in db.items && db.items[i].state == ItemRunning && db.items[i].lease.Some?
            && db.items[i].lease.value > now && i.0 in db.migrations && db.migrations[i.0].destination == profile
  }

  /** Another dispatcher holds the profile, it was started too recently, or all its slots, one by default, are taken. */
  predicate IsHeldBack(db: Db, profile: Id, now: real, locked: set<Id>) {
    || profile !in locked
    || (profile in db.dispatch && db.dispatch[profile] > now)
    || (profile in db.profiles && db.profiles[profile].concurrency.Some?
        && |BeingCopied(db, profile, now)| >= db.profiles[profile].concurrency.value)
    || (!(profile in db.profiles && db.profiles[profile].concurrency.Some?) && |BeingCopied(db, profile, now)| >= 1)
  }

  lemma ReadyIsDue(db: Db, i: Pair, now: real)
    ensures IsReady(db, i, now) <==> IsDue(ExpireLeases(db, now), i, now)
    ensures IsReady(db, i, now) ==> ExpireLeases(db, now).items[i].availableAt == ReadySince(db, i, now)
  {}

  lemma SameLeases(db: Db, profile: Id, now: real)
    ensures ActiveItems(ExpireLeases(db, now), profile, now) == BeingCopied(db, profile, now)
  {}

  lemma MayClaim(db: Db, i: Pair, now: real, locked: set<Id>, busy: set<Pair>)
    requires IsReady(db, i, now) && i !in busy
    ensures var profile := db.migrations[i.0].destination;
            && i in Candidates(ExpireLeases(db, now), profile, now, busy)
            && (CanClaim(ExpireLeases(db, now), profile, now, locked, busy) <==> !IsHeldBack(db, profile, now, locked))
  {
    var reset, profile := ExpireLeases(db, now), db.migrations[i.0].destination;
    ReadyIsDue(db, i, now);
    SameLeases(db, profile, now);
    assert profile in DueProfiles(reset, now);
    assert i in Candidates(reset, profile, now, busy);
  }

  /** Running items of running migrations that lost their worker are pending again, whatever else is claimed. */
  lemma LostItemsReturn(db: Db, now: real, lease: real, locked: set<Id>, busy: set<Pair>, chosen: Option<Pair>,
                        after: Db, i: Pair)
    requires Claims(db, now, lease, locked, busy, chosen, after)
    requires i in db.items && chosen != Some(i)
    ensures after.items.Keys == db.items.Keys
    ensures after.items[i] == if IsLost(db, i, now) && IsReady(db, i, now)
                              then db.items[i].(state := ItemPending, lease := None, availableAt := now)
                              else db.items[i]
  {}

  /**
   The claimed item was ready and its profile not held back. It counts one more attempt,
   and the next start for its profile is put off.
   */
  lemma ClaimedWasReady(db: Db, now: real, lease: real, locked: set<Id>, busy: set<Pair>, i: Pair, after: Db)
    requires Claims(db, now, lease, locked, busy, Some(i), after)
    ensures IsReady(db, i, now) && i !in busy && i in after.items
    ensures var item := db.items[i];
            after.items[i] == item.(state := ItemRunning, attempts := item.attempts + 1, lease := Some(now + lease),
                                    availableAt := ReadySince(db, i, now))
    ensures var profile := db.migrations[i.0].destination;
            && !IsHeldBack(db, profile, now, locked)
            && after == db.(items := after.items,
                            dispatch := if profile in db.profiles && db.profiles[profile].rate.Some?
                                        then db.dispatch[profile := now + 1.0 / db.profiles[profile].rate.value as real]
                                        else db.dispatch)
  {
    ReadyIsDue(db, i, now);
    MayClaim(db, i, now, locked, busy);
  }

  /** Nothing that is ready comes before the claimed item, unless its profile is held back. */
  lemma ClaimedIsFirst(db: Db, now: real, lease: real, locked: set<Id>, busy: set<Pair>, i: Pair, after: Db, j: Pair)
    requires Claims(db, now, lease, locked, busy, Some(i), after)
    requires IsReady(db, i, now) && IsReady(db, j, now) && j !in busy
    ensures var profile, other := db.migrations[i.0].destination, db.migrations[j.0].destination;
            && (other < profile ==> IsHeldBack(db, other, now, locked))
            && (other == profile ==>
                  var since, late := ReadySince(db, i, now), ReadySince(db, j, now);
                  since < late || (since == late && i.1 <= j.1))
  {
    ReadyIsDue(db, i, now);
    ReadyIsDue(db, j, now);
    MayClaim(db, j, now, locked, busy);
    assert db.migrations[j.0].destination in DueProfiles(ExpireLeases(db, now), now);
  }

  /** Nothing is claimed only when all that is ready is held back. */
  lemma NothingToClaim(db: Db, now: real, lease: real, locked: set<Id>, busy: set<Pair>, after: Db, j: Pair)
    requires Claims(db, now, lease, locked, busy, None, after)
    requires IsReady(db, j, now) && j !in busy
    ensures IsHeldBack(db, db.migrations[j.0].destination, now, locked)
  {
    MayClaim(db, j, now, locked, busy);
    assert db.migrations[j.0].destination in DueProfiles(ExpireLeases(db, now), now);
  }
}
