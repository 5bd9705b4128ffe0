/** The handoff from outbox to queue: no job is lost between the two, whoever interferes. */
module JobHandoff {
  import opened Common
  import opened JobModel
  import opened JobProtocol

  ghost predicate AttemptsOnly(a: Action) {
    a.StartJob? || a.FinishJob? || a.DeliverJob? || a.Heartbeat? || a.Publish? || a.SetDefaultProfile? || a.ForgetTask?
  }

  lemma AttemptsLeaveOutbox(w: World, a: Action)
    requires AttemptsOnly(a)
    ensures var w' := Apply(w, a);
            && w'.db.outbox == w.db.outbox && w'.db.jobs.Keys == w.db.jobs.Keys && w'.batches == w.batches
            && w'.handoffs == w.handoffs && w'.armed == w.armed && w'.claimed == w.claimed && w'.serial == w.serial
  {}

  ghost predicate Arms(a: Action) {
    a.CreateJob? || a.RetryJob? || a.RecoverJob?
  }

  function ArmedJob(a: Action): Id
    requires Arms(a)
  {
    match a
    case CreateJob(q, _, _) => q.id
    case RetryJob(_, id, _, _, _) => id
    case RecoverJob(j, _, _, _) => j
  }

  /** Making a row due takes it from whoever had claimed it. */
  lemma ArmingUnlocks(w: World, a: Action)
    requires Arms(a) && (a.RecoverJob? ==> CanRecover(w.db, a.job, a.now)) && Enabled(w, a)
    ensures var w', j := Apply(w, a), ArmedJob(a);
            && w'.armed == w.armed[j := w.serial] && w'.serial == w.serial && w'.handoffs == w.handoffs
            && w'.claimed == w.claimed && w'.batches == w.batches
            && j in w'.db.outbox && w'.db.outbox == w.db.outbox[j := w'.db.outbox[j]] && w'.db.outbox[j].lockedBy.None?
            && w'.db.jobs.Keys == w.db.jobs.Keys + {j}
  {}

  // ---- No job is lost ----

  lemma ArmingLosesNothing(w: World, a: Action, k: Id)
    requires Arms(a) && Enabled(w, a) && k in Apply(w, a).db.jobs
    requires forall j | j in w.db.jobs :: NotLost(w, j)
    ensures NotLost(Apply(w, a), k)
  {
    if a.RecoverJob? && !CanRecover(w.db, a.job, a.now) {
      assert NotLost(w, k);
    } else {
      ArmingUnlocks(w, a);
      if k != ArmedJob(a) { StillNotLost(w, Apply(w, a), k); }
    }
  }

  lemma StillNotLost(w: World, w': World, k: Id)
    requires NotLost(w, k) && k in w'.armed && w'.armed[k] == w.armed[k] && w.handoffs <= w'.handoffs
    requires w.serial <= w'.serial
    requires k in w.db.outbox ==> k in w'.db.outbox
    ensures NotLost(w', k)
  {
    if k !in w.db.outbox {
      var claim :| HandedSince(w, k, claim);
      assert HandedSince(w', k, claim);
    }
  }

  /** A row is deleted only by a dispatcher that handed the job over under the row's last claim. */
  lemma DeletedWasHanded(w: World, owner: Id)
    requires HandoffInv(w) && HasFirst(w, owner, Handed)
    requires IsLockedBy(w.db, w.batches[owner][0].job, owner)
    ensures var j := w.batches[owner][0].job;
            && j in w.claimed && w.batches[owner][0].claim == w.claimed[j] && HandedSince(w, j, w.claimed[j])
  {
    assert ItemAgrees(w, owner, w.batches[owner][0]);
    assert ClaimIsCurrent(w, w.batches[owner][0].job);
  }

  lemma CompletingLosesNothing(w: World, a: Action, k: Id)
    requires HandoffInv(w) && a.CompleteFirst? && Enabled(w, a) && k in Apply(w, a).db.jobs
    ensures NotLost(Apply(w, a), k)
  {
    assert NotLost(w, k);
    var j := w.batches[a.owner][0].job;
    if a.reached && k == j && IsLockedBy(w.db, j, a.owner) {
      DeletedWasHanded(w, a.owner);
      assert HandedSince(Apply(w, a), j, w.claimed[j]);
    } else {
      StillNotLost(w, Apply(w, a), k);
    }
  }

  lemma QueueStepsLoseNothing(w: World, a: Action, k: Id)
    requires NotLost(w, k) && Enabled(w, a)
    requires AttemptsOnly(a) || a.ClaimBatch? || a.Enqueue? || a.DeferFirst? || a.StopDispatcher?
    ensures NotLost(Apply(w, a), k)
  {
    if AttemptsOnly(a) { AttemptsLeaveOutbox(w, a); }
    StillNotLost(w, Apply(w, a), k);
  }

  lemma StepLosesNothing(w: World, a: Action, k: Id)
    requires HandoffInv(w) && Enabled(w, a) && k in Apply(w, a).db.jobs
    ensures NotLost(Apply(w, a), k)
  {
    if Arms(a) {
      ArmingLosesNothing(w, a, k);
    } else if a.CompleteFirst? {
      CompletingLosesNothing(w, a, k);
    } else {
      if AttemptsOnly(a) { AttemptsLeaveOutbox(w, a); }
      assert NotLost(w, k);
      QueueStepsLoseNothing(w, a, k);
    }
  }

  // ---- Claims ----

  lemma StepKeepsClaims(w: World, a: Action, k: Id)
    requires HandoffInv(w) && w.db.outbox.Keys <= w.db.jobs.Keys && Enabled(w, a)
    ensures ClaimIsCurrent(Apply(w, a), k)
  {
    assert k in w.db.outbox ==> ClaimIsCurrent(w, k) && NotLost(w, k);
    if AttemptsOnly(a) {
      AttemptsLeaveOutbox(w, a);
    } else if Arms(a) && (a.RecoverJob? ==> CanRecover(w.db, a.job, a.now)) {
      ArmingUnlocks(w, a);
    } else {
      OutboxStepKeepsClaims(w, a, k);
    }
  }

  lemma OutboxStepKeepsClaims(w: World, a: Action, k: Id)
    requires !AttemptsOnly(a) && !(Arms(a) && (a.RecoverJob? ==> CanRecover(w.db, a.job, a.now)))
    requires ClaimIsCurrent(w, k) && (k in w.db.outbox ==> NotLost(w, k))
    requires Enabled(w, a)
    ensures ClaimIsCurrent(Apply(w, a), k)
  {}

  // ---- Batches ----

  /** Locks and claims of a row, as far as a batch item depends on them. */
  lemma ItemStillAgrees(w: World, w': World, owner: Id, item: BatchItem)
    requires ItemAgrees(w, owner, item) && w.handoffs <= w'.handoffs
    requires IsLockedBy(w'.db, item.job, owner) ==>
               IsLockedBy(w.db, item.job, owner)
                   && (item.job in w.claimed ==> item.job in w'.claimed && w'.claimed[item.job] == w.claimed[item.job])
    ensures ItemAgrees(w', owner, item)
  {}

  lemma ClaimKeepsItems(w: World, a: Action, owner: Id, item: BatchItem)
    requires HandoffInv(w) && a.ClaimBatch? && Enabled(w, a)
    requires owner in Apply(w, a).batches && item in Apply(w, a).batches[owner]
    ensures ItemAgrees(Apply(w, a), owner, item)
  {
    var w' := Apply(w, a);
    if owner != a.owner {
      assert ItemAgrees(w, owner, item);
      assert item.job in Members(a.chosen) ==> !IsLockedBy(w'.db, item.job, owner);
      ItemStillAgrees(w, w', owner, item);
    }
  }

  lemma MovingFirstKeepsItems(w: World, a: Action, owner: Id, item: BatchItem)
    requires HandoffInv(w) && (a.Enqueue? || a.CompleteFirst? || a.DeferFirst?) && Enabled(w, a)
    requires owner in Apply(w, a).batches && item in Apply(w, a).batches[owner]
    ensures ItemAgrees(Apply(w, a), owner, item)
  {
    var w' := Apply(w, a);
    if item in w.batches[owner] {
      assert ItemAgrees(w, owner, item);
      ItemStillAgrees(w, w', owner, item);
    } else {
      assert ItemAgrees(w, owner, w.batches[owner][0]);
    }
  }

  lemma StepKeepsItems(w: World, a: Action, owner: Id, item: BatchItem)
    requires HandoffInv(w) && Enabled(w, a)
    requires owner in Apply(w, a).batches && item in Apply(w, a).batches[owner]
    ensures ItemAgrees(Apply(w, a), owner, item)
  {
    if a.ClaimBatch? {
      ClaimKeepsItems(w, a, owner, item);
    } else if a.Enqueue? || a.CompleteFirst? || a.DeferFirst? {
      MovingFirstKeepsItems(w, a, owner, item);
    } else {
      OtherStepsKeepItems(w, a, owner, item);
    }
  }

  lemma OtherStepsKeepItems(w: World, a: Action, owner: Id, item: BatchItem)
    requires HandoffInv(w) && Enabled(w, a) && !a.ClaimBatch? && !a.Enqueue? && !a.CompleteFirst? && !a.DeferFirst?
    requires owner in Apply(w, a).batches && item in Apply(w, a).batches[owner]
    ensures ItemAgrees(Apply(w, a), owner, item)
  {
    if AttemptsOnly(a) {
      AttemptsLeaveOutbox(w, a);
    } else if Arms(a) && (a.RecoverJob? ==> CanRecover(w.db, a.job, a.now)) {
      ArmingUnlocks(w, a);
    }
    assert ItemAgrees(w, owner, item);
    ItemStillAgrees(w, Apply(w, a), owner, item);
  }

  lemma StepKeepsHandoff(w: World, a: Action)
    requires HandoffInv(w) && w.db.outbox.Keys <= w.db.jobs.Keys && Enabled(w, a)
    ensures HandoffInv(Apply(w, a))
  {
    var w' := Apply(w, a);
    forall k | k in w'.db.jobs ensures NotLost(w', k) { StepLosesNothing(w, a, k); }
    forall k | k in w'.db.outbox ensures ClaimIsCurrent(w', k) { StepKeepsClaims(w, a, k); }
    forall owner, item | owner in w'.batches && item in w'.batches[owner] ensures ItemAgrees(w', owner, item) {
      StepKeepsItems(w, a, owner, item);
    }
  }
}
