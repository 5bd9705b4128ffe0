/** Slots and start rates of destination profiles, and which migrations can still be claimed from. */
module MigrationLimits {
  import opened Common
  import opened MigrationModel
  import opened MigrationProtocol
  import opened MigrationSafety

  lemma {:induction false} SubsetIsSmaller<T>(a: set<T>, b: set<T>)
    requires a <= b
    ensures |a| <= |b|
    decreases b
  {
    if a != {} {
      var x :| x in a;
      SubsetIsSmaller(a - {x}, b - {x});
    }
  }

  // ---- Slots ----

  /** Every lease that is running afterwards was running before, except possibly on one item. */
  ghost predicate NothingElseStarted(db: Db, db': Db, except: Option<Pair>) {
    && (forall i | i in db'.items && db'.items[i].state == ItemRunning && except != Some(i) ::
          i in db.items && db.items[i].state == ItemRunning && db.items[i].lease == db'.items[i].lease)
  }

  lemma ReleaseStartsNone(db: Db, migration: Id, obj: Id, retry: bool, at: real)
    ensures NothingElseStarted(db, Release(db, migration, obj, retry, at), None)
  {}

  lemma CompleteStartsNone(db: Db, work: Work, digest: Digest, size: nat, skipped: bool, now: real)
    ensures NothingElseStarted(db, Complete(db, work, digest, size, skipped, now), None)
    ensures Complete(db, work, digest, size, skipped, now).dispatch == db.dispatch
  {
    CompletePlaces(db, work, digest, size, skipped, now);
    FinishStartsNone(db, work, skipped);
  }

  lemma FinishStartsNone(db: Db, work: Work, skipped: bool)
    ensures NothingElseStarted(db, FinishItem(db, work, skipped), None)
  {}

  lemma StepStartsNone(hash: Hash, w: World, a: Action)
    requires Enabled(hash, w, a) && !a.ClaimWork?
    ensures NothingElseStarted(w.db, Apply(hash, w, a).db, None)
  {
    match a {
      case ReleaseUnqueued(item, at) => ReleaseStartsNone(w.db, item.0, item.1, true, at);
      case ReleaseInactive(worker, at) =>
        ReleaseStartsNone(w.db, w.workers[worker].work.migration, w.workers[worker].work.obj, true, at);
      case FailWork(worker, transient, at) =>
        var work := w.workers[worker].work;
        ReleaseStartsNone(w.db, work.migration, work.obj, transient && work.attempts < MAX_ATTEMPTS, at);
      case FinishSkipped(worker, now) => CompleteStartsNone(w.db, w.workers[worker].work, 0, 0, true, now);
      case FinishCopied(worker, now) =>
        var pc := w.workers[worker];
        CompleteStartsNone(w.db, pc.work, hash(pc.contents), |pc.contents|, false, now);
      case ResumeFailedItems(id, now) => ResumeStartsNone(w.db, id, now);
      case CreateMigration(id, source, destination, now, selection) =>
        CreateStartsNone(w.db, id, source, destination, now, selection);
      case _ =>
    }
  }

  lemma ResumeStartsNone(db: Db, id: Id, now: real)
    ensures NothingElseStarted(db, ResumeItems(db, id, now), None)
  {}

  lemma CreateStartsNone(db: Db, id: Id, source: Id, destination: Id, now: real, selection: set<Id>)
    ensures NothingElseStarted(db, Create(db, id, source, destination, now, selection), None)
  {}

  /** The slots taken at a time not earlier are no more, apart from the one item. */
  lemma NoMoreActive(db: Db, db': Db, p: Id, now: real, now': real, except: Option<Pair>)
    requires KeepsRows(db, db') && NothingElseStarted(db, db', except) && now <= now'
    requires forall i | i in db.items :: i.0 in db.migrations
    ensures ActiveItems(db', p, now') <= ActiveItems(db, p, now) + (if except.Some? then {except.value} else {})
  {}

  lemma ClaimHasSlot(db: Db, now: real, lease: real, locked: set<Id>, busy: set<Pair>, i: Pair)
    requires Claims(db, now, lease, locked, busy, Some(i), AfterClaim(db, now, lease, Some(i)))
    ensures var reset := ExpireLeases(db, now);
            && i in reset.items && i.0 in reset.migrations
            && var p := reset.migrations[i.0].destination; |ActiveItems(reset, p, now)| < Slots(reset, p)
  {}

  lemma ClaimKeepsCap(hash: Hash, w: World, a: Action, p: Id)
    requires ItemsAgree(w) && |ActiveItems(w.db, p, w.clock)| <= Slots(w.db, p)
    requires Enabled(hash, w, a) && a.ClaimWork?
    ensures |ActiveItems(AfterClaim(w.db, a.now, a.lease, a.chosen), p, w.clock)| <= Slots(w.db, p)
  {
    var after, reset := AfterClaim(w.db, a.now, a.lease, a.chosen), ExpireLeases(w.db, a.now);
    if a.chosen.Some? && a.chosen.value.0 in w.db.migrations && w.db.migrations[a.chosen.value.0].destination == p {
      ClaimHasSlot(w.db, a.now, a.lease, a.locked, a.busy, a.chosen.value);
      ClaimStartsOneMore(reset, a.chosen.value, a.now, a.lease);
      NoMoreActive(reset, after, p, a.now, w.clock, a.chosen);
      SubsetIsSmaller(ActiveItems(after, p, w.clock), ActiveItems(reset, p, a.now) + {a.chosen.value});
    } else {
      ElsewhereNoMoreActive(w.db, p, w.clock, a.now, a.lease, a.chosen);
      SubsetIsSmaller(ActiveItems(after, p, w.clock), ActiveItems(w.db, p, w.clock));
    }
  }

  lemma ElsewhereNoMoreActive(db: Db, p: Id, clock: real, now: real, lease: real, chosen: Option<Pair>)
    requires chosen.Some? && chosen.value.0 in db.migrations ==> db.migrations[chosen.value.0].destination != p
    ensures ActiveItems(AfterClaim(db, now, lease, chosen), p, clock) <= ActiveItems(db, p, clock)
  {}

  lemma ClaimStartsOneMore(reset: Db, i: Pair, now: real, lease: real)
    requires i in reset.items && i.0 in reset.migrations
    ensures NothingElseStarted(reset, MarkClaimed(reset, i, now, lease), Some(i))
    ensures KeepsRows(reset, MarkClaimed(reset, i, now, lease))
  {}

  lemma StepKeepsCap(hash: Hash, w: World, a: Action)
    requires Inv(hash, w) && Enabled(hash, w, a)
    ensures CapHeld(Apply(hash, w, a))
  {
    var w' := Apply(hash, w, a);
    StepKeepsRows(hash, w, a);
    forall p: Id ensures |ActiveItems(w'.db, p, w'.clock)| <= Slots(w'.db, p) {
      if a.ClaimWork? {
        ClaimKeepsCap(hash, w, a, p);
      } else {
        StepStartsNone(hash, w, a);
        TimeGoesOn(hash, w, a);
        OthersKeepCap(w.db, w'.db, p, w.clock, w'.clock);
      }
    }
  }

  lemma TimeGoesOn(hash: Hash, w: World, a: Action)
    requires Enabled(hash, w, a)
    ensures w.clock <= Apply(hash, w, a).clock
  {}

  lemma OthersKeepCap(db: Db, db': Db, p: Id, now: real, now': real)
    requires KeepsRows(db, db') && NothingElseStarted(db, db', None) && now <= now'
    requires forall i | i in db.items :: i.0 in db.migrations
    requires |ActiveItems(db, p, now)| <= Slots(db, p)
    ensures |ActiveItems(db', p, now')| <= Slots(db', p)
  {
    NoMoreActive(db, db', p, now, now', None);
    SubsetIsSmaller(ActiveItems(db', p, now'), ActiveItems(db, p, now));
  }

  // ---- Start rates ----

  /** A claim waits for the profile's next start, so it is a gap after every earlier one. */
  lemma ClaimIsSpaced(before: Db, after: Db, claims: seq<ClaimRecord>, p: Id, gap: real, now: real)
    requires Spaced(before, claims, p, gap) && gap >= 0.0
    requires MayStart(before, p, now)
    requires p in after.dispatch && after.dispatch[p] == now + gap
    ensures Spaced(after, claims + [ClaimRecord(p, now)], p, gap)
  {}

  lemma OtherClaimIsSpaced(before: Db, after: Db, claims: seq<ClaimRecord>, p: Id, gap: real, q: Id, now: real)
    requires Spaced(before, claims, p, gap) && p != q
    requires p in before.dispatch ==> p in after.dispatch && after.dispatch[p] == before.dispatch[p]
    ensures Spaced(after, claims + [ClaimRecord(q, now)], p, gap)
  {}

  /** What a committed claim of an item meant for its profile. */
  lemma ClaimWaits(db: Db, now: real, lease: real, locked: set<Id>, busy: set<Pair>, i: Pair)
    requires Claims(db, now, lease, locked, busy, Some(i), AfterClaim(db, now, lease, Some(i)))
    ensures i.0 in db.migrations && MayStart(db, db.migrations[i.0].destination, now)
  {}

  lemma ClaimSetsDispatch(db: Db, now: real, lease: real, i: Pair)
    requires i.0 in db.migrations && i in db.items
    ensures var p, after := db.migrations[i.0].destination, AfterClaim(db, now, lease, Some(i));
            && (forall rate | RateOf(db, p, rate) :: p in after.dispatch && after.dispatch[p] == now + StartGap(rate))
            && (forall q | q in db.dispatch && q != p :: q in after.dispatch && after.dispatch[q] == db.dispatch[q])
  {}

  lemma ClaimKeepsRate(hash: Hash, w: World, a: Action, p: Id, rate: Rate)
    requires Spaced(w.db, w.claims, p, StartGap(rate)) && RateOf(w.db, p, rate)
    requires Enabled(hash, w, a) && a.ClaimWork? && a.chosen.Some?
    requires forall i | i in w.db.items :: i.0 in w.db.migrations
    ensures Spaced(Apply(hash, w, a).db, Apply(hash, w, a).claims, p, StartGap(rate))
  {
    var i, after := a.chosen.value, AfterClaim(w.db, a.now, a.lease, a.chosen);
    ClaimWaits(w.db, a.now, a.lease, a.locked, a.busy, i);
    ClaimTakesAnItem(w.db, a.now, a.lease, a.locked, a.busy, i);
    ClaimSetsDispatch(w.db, a.now, a.lease, i);
    var q := w.db.migrations[i.0].destination;
    if q == p {
      ClaimIsSpaced(w.db, after, w.claims, p, StartGap(rate), a.now);
    } else {
      OtherClaimIsSpaced(w.db, after, w.claims, p, StartGap(rate), q, a.now);
    }
  }

  lemma ClaimTakesAnItem(db: Db, now: real, lease: real, locked: set<Id>, busy: set<Pair>, i: Pair)
    requires Claims(db, now, lease, locked, busy, Some(i), AfterClaim(db, now, lease, Some(i)))
    ensures i in db.items && IsDue(ExpireLeases(db, now), i, now)
  {}

  lemma OtherStepsStartNothing(hash: Hash, w: World, a: Action)
    requires Enabled(hash, w, a) && (a.ClaimWork? ==> a.chosen.None?)
    ensures Apply(hash, w, a).claims == w.claims && Apply(hash, w, a).db.dispatch == w.db.dispatch
  {
    match a {
      case FinishSkipped(worker, now) => CompleteStartsNone(w.db, w.workers[worker].work, 0, 0, true, now);
      case FinishCopied(worker, now) =>
        var pc := w.workers[worker];
        CompleteStartsNone(w.db, pc.work, hash(pc.contents), |pc.contents|, false, now);
      case _ =>
    }
  }

  lemma StepKeepsRate(hash: Hash, w: World, a: Action)
    requires Inv(hash, w) && Enabled(hash, w, a)
    ensures RateHeld(Apply(hash, w, a))
  {
    var w' := Apply(hash, w, a);
    StepKeepsRows(hash, w, a);
    forall p, rate | RateOf(w'.db, p, rate) ensures Spaced(w'.db, w'.claims, p, StartGap(rate)) {
      assert RateOf(w.db, p, rate);
      if a.ClaimWork? && a.chosen.Some? {
        ClaimKeepsRate(hash, w, a, p, rate);
      } else {
        OtherStepsStartNothing(hash, w, a);
      }
    }
  }

  ghost predicate InWindow(c: ClaimRecord, p: Id, from: real, length: real) {
    c.profile == p && from <= c.at <= from + length
  }

  ghost function ClaimsInWindow(claims: seq<ClaimRecord>, p: Id, from: real, length: real): nat {
    if claims == [] then 0
    else ClaimsInWindow(claims[..|claims| - 1], p, from, length)
         + (if InWindow(claims[|claims| - 1], p, from, length) then 1 else 0)
  }

  /** n gaps end to end. */
  ghost function Gaps(n: nat, gap: real): real {
    if n == 0 then 0.0 else Gaps(n - 1, gap) + gap
  }

  ghost predicate ClaimedAfter(claims: seq<ClaimRecord>, i: nat, p: Id, from: real, length: real, wait: real) {
    i < |claims| && InWindow(claims[i], p, from, length) && claims[i].at >= from + wait
  }

  /** Some claim in the window comes n - 1 gaps into it, if n are in it. */
  lemma {:induction false} WindowFills(claims: seq<ClaimRecord>, p: Id, from: real, length: real, gap: real)
    returns (i: nat)
    requires forall i, j | 0 <= i < j < |claims| && claims[i].profile == p && claims[j].profile == p ::
               claims[j].at >= claims[i].at + gap
    ensures var n := ClaimsInWindow(claims, p, from, length);
            n > 0 ==> ClaimedAfter(claims, i, p, from, length, Gaps(n - 1, gap))
    decreases |claims|
  {
    i := 0;
    if claims != [] {
      var earlier, last := claims[..|claims| - 1], claims[|claims| - 1];
      i := WindowFills(earlier, p, from, length, gap);
      if InWindow(last, p, from, length) {
        if ClaimsInWindow(earlier, p, from, length) > 0 {
          assert claims[i] == earlier[i];
          assert claims[|claims| - 1].at >= claims[i].at + gap;
        }
        i := |claims| - 1;
      }
    }
  }

  lemma {:induction false} GapsTimesRate(n: nat, rate: Rate)
    ensures Gaps(n, StartGap(rate)) * rate as real == n as real
  {
    if n > 0 {
      GapsTimesRate(n - 1, rate);
      OneMoreGap(Gaps(n - 1, StartGap(rate)), StartGap(rate), rate as real);
    }
  }

  lemma OneMoreGap(x: real, gap: real, r: real)
    requires r > 0.0 && gap == 1.0 / r
    ensures (x + gap) * r == x * r + 1.0
  {
    assert gap * r == 1.0;
    Distribute(x, gap, r);
  }

  lemma Distribute(x: real, y: real, r: real)
    ensures (x + y) * r == x * r + y * r
  {}

  /**
   At most T*r + 1 claims for a profile of rate r in any window of length T, across all migrations
   and dispatchers.
   */
  lemma StartRateBound(hash: Hash, w: World, p: Id, rate: Rate, from: real, length: real)
    requires Inv(hash, w) && RateOf(w.db, p, rate) && length >= 0.0
    ensures ClaimsInWindow(w.claims, p, from, length) as real <= length * rate as real + 1.0
  {
    var n := ClaimsInWindow(w.claims, p, from, length);
    ClaimsAreSpaced(hash, w, p, rate);
    var i := WindowFills(w.claims, p, from, length, StartGap(rate));
    FewGapsFit(n, rate, length);
  }

  lemma FewGapsFit(n: nat, rate: Rate, length: real)
    requires length >= 0.0 && (n > 0 ==> Gaps(n - 1, StartGap(rate)) <= length)
    ensures n as real <= length * rate as real + 1.0
  {
    if n > 0 {
      GapsTimesRate(n - 1, rate);
      MultiplyBoth(Gaps(n - 1, StartGap(rate)), length, rate as real);
    } else {
      MultiplyBoth(0.0, length, rate as real);
    }
  }

  lemma ClaimsAreSpaced(hash: Hash, w: World, p: Id, rate: Rate)
    requires Inv(hash, w) && RateOf(w.db, p, rate)
    ensures forall i, j | 0 <= i < j < |w.claims| && w.claims[i].profile == p && w.claims[j].profile == p ::
              w.claims[j].at >= w.claims[i].at + StartGap(rate)
  {
    assert Spaced(w.db, w.claims, p, StartGap(rate));
  }

  lemma MultiplyBoth(x: real, y: real, r: real)
    requires x <= y && r > 0.0
    ensures x * r <= y * r
  {}

  // ---- Ended migrations ----

  ghost predicate IsTerminal(db: Db, m: Id) {
    m in db.migrations && db.migrations[m].state in {Completed, Canceled}
  }

  ghost predicate SameState(db: Db, db': Db, m: Id) {
    m in db.migrations && m in db'.migrations && db'.migrations[m].state == db.migrations[m].state
  }

  lemma TransactionsKeepEnded(db: Db, work: Work, digest: Digest, size: nat, flag: bool, at: real, m: Id)
    requires IsTerminal(db, m)
    ensures SameState(db, Complete(db, work, digest, size, flag, at), m)
    ensures SameState(db, Release(db, work.migration, work.obj, flag, at), m)
  {
    var recorded := if flag then db else RecordCopy(db, work, digest, size, at);
    RunningCompletionKeepsEnded(FinishItem(recorded, work, flag), work.migration, m);
  }

  lemma RunningCompletionKeepsEnded(db: Db, id: Id, m: Id)
    requires IsTerminal(db, m)
    ensures SameState(db, CompleteIfFinished(db, id, Some(Running)), m)
  {}

  lemma OperatorKeepsEnded(db: Db, id: Id, m: Id)
    requires IsTerminal(db, m)
    ensures SameState(db, ResumeState(db, id), m) && SameState(db, Pause(db, id), m) && SameState(db, Cancel(db, id), m)
  {}

  lemma ClaimKeepsMigrations(db: Db, now: real, lease: real, chosen: Option<Pair>)
    ensures AfterClaim(db, now, lease, chosen).migrations == db.migrations
  {}

  /** The last statement of a resume, on a migration all of whose items are finished. */
  predicate FindsComplete(db: Db, a: Action, m: Id) {
    a == ResumeToCompletion(m) && AllFinished(db, m)
  }

  /**
   Completed is never left. Canceled is left by exactly one step, the last statement of a
   resume that finds all items finished, and then for completed.
   */
  lemma StepKeepsEnded(hash: Hash, w: World, a: Action, m: Id)
    requires Enabled(hash, w, a) && IsTerminal(w.db, m)
    ensures m in Apply(hash, w, a).db.migrations
    ensures Apply(hash, w, a).db.migrations[m].state
            == if FindsComplete(w.db, a, m) then Completed else w.db.migrations[m].state
  {
    match a {
      case ClaimWork(now, lease, _, _, chosen) => ClaimKeepsMigrations(w.db, now, lease, chosen);
      case FinishSkipped(worker, now) => TransactionsKeepEnded(w.db, w.workers[worker].work, 0, 0, true, now, m);
      case FinishCopied(worker, now) =>
        var pc := w.workers[worker];
        TransactionsKeepEnded(w.db, pc.work, hash(pc.contents), |pc.contents|, false, now, m);
      case FailWork(worker, transient, at) =>
        var work := w.workers[worker].work;
        TransactionsKeepEnded(w.db, work, 0, 0, transient && work.attempts < MAX_ATTEMPTS, at, m);
      case ResumeMigration(id) => OperatorKeepsEnded(w.db, id, m);
      case PauseMigration(id) => OperatorKeepsEnded(w.db, id, m);
      case CancelMigration(id) => OperatorKeepsEnded(w.db, id, m);
      case _ =>
    }
  }

  lemma TerminalIsNotClaimed(hash: Hash, w: World, a: Action, m: Id)
    requires Enabled(hash, w, a) && IsTerminal(w.db, m)
    ensures a.ClaimWork? && a.chosen.Some? ==> a.chosen.value.0 != m
  {
    if a.ClaimWork? && a.chosen.Some? {
      ClaimTakesAnItem(w.db, a.now, a.lease, a.locked, a.busy, a.chosen.value);
    }
  }
}
