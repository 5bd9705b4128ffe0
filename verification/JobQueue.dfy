/** A dispatcher's pass over its batch, as a run of the job protocol. */
module JobQueue {
  import opened Common
  import opened JobModel
  import opened JobProtocol
  import opened JobRepository

  /** The rows after a batch was gone through in order: deleted where the queue took the job, put back where not. */
  function PassOver(db: Db, owner: Id, batch: seq<Id>, reached: Id -> bool, retryAt: Id -> real): Db {
    if batch == [] then db
    else
      var earlier, j := PassOver(db, owner, batch[..|batch| - 1], reached, retryAt), batch[|batch| - 1];
      if reached(j) then CompleteRow(earlier, j, owner) else RetryRow(earlier, j, owner, retryAt(j))
  }

  function TakenByQueue(batch: seq<Id>, reached: Id -> bool): set<Id> {
    set j | j in batch && reached(j)
  }

  lemma OneMore(db: Db, owner: Id, batch: seq<Id>, i: nat, reached: Id -> bool, retryAt: Id -> real)
    requires i < |batch|
    ensures TakenByQueue(batch[..i + 1], reached) ==
              TakenByQueue(batch[..i], reached) + (if reached(batch[i]) then {batch[i]} else {})
    ensures PassOver(db, owner, batch[..i + 1], reached, retryAt)
            == var earlier := PassOver(db, owner, batch[..i], reached, retryAt);
               if reached(batch[i]) then CompleteRow(earlier, batch[i], owner)
                 else RetryRow(earlier, batch[i], owner, retryAt(batch[i]))
  {
    assert batch[..i + 1] == batch[..i] + [batch[i]];
    assert batch[..i + 1][..i] == batch[..i];
  }

  lemma ClaimRun(before: World, owner: Id, limit: nat, now: real, until: real, busy: set<Id>, batch: seq<Id>)
    returns (run: seq<Action>, after: World)
    requires HasNoBatch(before, owner) && IsBatch(before.db, limit, now, busy, Members(batch))
    ensures Leads(before, run, after)
    ensures after.db == ClaimRows(before.db, owner, Members(batch), until) && after.tasks == before.tasks
    ensures owner in after.batches && after.batches[owner] == BatchOf(batch, before.serial)
  {
    var a := ClaimBatch(owner, limit, now, until, busy, batch);
    after := ClaimInto(before, owner, until, batch);
    assert Enabled(before, a) && Apply(before, a) == after;
    run := [a];
    assert run[1..] == [];
    assert LeadsFrom(before, run, after);
  }

  /** The dispatcher is at its first pass, or done with the one before. */
  ghost predicate HasNoBatch(w: World, owner: Id) {
    owner in w.batches ==> w.batches[owner] == []
  }

  predicate IsPutBack(db: Db, j: Id, at: real) {
    j in db.outbox && db.outbox[j].lockedBy.None? && db.outbox[j].lockedUntil.None? && db.outbox[j].availableAt == at
  }

  /** Every row of the batch is deleted or put back, and no other is touched. */
  lemma {:induction false} PassSettlesTheBatch(db: Db, owner: Id, batch: seq<Id>, reached: Id -> bool,
                                               retryAt: Id -> real, k: Id)
    requires k in batch ==> IsLockedBy(db, k, owner)
    ensures var after := PassOver(db, owner, batch, reached, retryAt);
            && (k in batch ==> if reached(k) then k !in after.outbox else IsPutBack(after, k, retryAt(k)))
            && (k !in batch ==> (k in after.outbox <==> k in db.outbox))
            && (k !in batch && k in db.outbox ==> after.outbox[k] == db.outbox[k])
  {
    if batch != [] {
      var earlier := batch[..|batch| - 1];
      PassSettlesTheBatch(db, owner, earlier, reached, retryAt, k);
      assert k in batch <==> k in earlier || k == batch[|batch| - 1];
    }
  }

  class Dispatcher {
    const owner: Id
    const repo: Repository
    var tasks: set<Id>

    constructor (owner: Id, repo: Repository)
      ensures this.owner == owner && this.repo == repo && tasks == {}
    {
      this.owner := owner;
      this.repo := repo;
      tasks := {};
    }

    /** False when the queue cannot be reached; a job it has already counts as accepted. */
    method Enqueue(j: Id, reached: bool) returns (ok: bool)
      modifies this
      ensures ok == reached && tasks == old(tasks) + (if reached then {j} else {})
    {
      if reached { tasks := tasks + {j}; }
      return reached;
    }

    /**
     One pass: every claimed row is either handed to the queue and completed, or put
     back for later. `reached(j)` says whether the queue takes job j just then.
     */
    method Dispatch(limit: nat, lease: real, now: real, busy: set<Id>, reached: Id -> bool, retryAt: Id -> real,
                    ghost before: World)
      returns (batch: seq<Id>, ghost run: seq<Action>, ghost after: World)
      requires before.db == repo.Rows() && before.tasks == tasks && HasNoBatch(before, owner)
      modifies this, repo
      ensures IsBatch(old(repo.Rows()), limit, now, busy, Members(batch))
      ensures repo.Rows() ==
                PassOver(ClaimRows(old(repo.Rows()), owner, Members(batch), now + lease), owner, batch, reached,
                         retryAt)
      ensures tasks == old(tasks) + set j | j in batch && reached(j)
      ensures Leads(before, run, after) && after.db == repo.Rows() && after.tasks == tasks
      ensures HasNoBatch(after, owner)
    {
      batch, run, after := ClaimStep(limit, lease, now, busy, before);
      ghost var claimed := repo.Rows();
      for i := 0 to |batch|
        invariant Leads(before, run, after) && after.db == repo.Rows() && after.tasks == tasks
        invariant owner in after.batches && after.batches[owner] == BatchOf(batch, before.serial)[i..]
        invariant tasks == old(tasks) + TakenByQueue(batch[..i], reached)
        invariant repo.Rows() == PassOver(claimed, owner, batch[..i], reached, retryAt)
      {
        OneMore(claimed, owner, batch, i, reached, retryAt);
        run, after := HandOver(batch[i], reached(batch[i]), retryAt(batch[i]), before, run, after);
      }
      assert batch[..|batch|] == batch;
    }

    method ClaimStep(limit: nat, lease: real, now: real, busy: set<Id>, ghost before: World)
      returns (batch: seq<Id>, ghost run: seq<Action>, ghost after: World)
      requires before.db == repo.Rows() && HasNoBatch(before, owner)
      modifies repo
      ensures IsBatch(old(repo.Rows()), limit, now, busy, Members(batch))
      ensures repo.Rows() == ClaimRows(old(repo.Rows()), owner, Members(batch), now + lease)
      ensures Leads(before, run, after) && after.db == repo.Rows() && after.tasks == before.tasks
      ensures owner in after.batches && after.batches[owner] == BatchOf(batch, before.serial)
    {
      batch := repo.ClaimOutbox(owner, limit, lease, now, busy);
      run, after := ClaimRun(before, owner, limit, now, now + lease, busy, batch);
    }

    method HandOver(j: Id, reached: bool, retryAt: real, ghost before: World, ghost soFar: seq<Action>,
                    ghost middle: World)
      returns (ghost run: seq<Action>, ghost after: World)
      requires Leads(before, soFar, middle) && middle.db == repo.Rows() && middle.tasks == tasks
      requires HasFirst(middle, owner, Claimed) && middle.batches[owner][0].job == j
      modifies this, repo
      ensures Leads(before, run, after) && after.db == repo.Rows() && after.tasks == tasks
      ensures owner in after.batches && after.batches[owner] == middle.batches[owner][1..]
      ensures tasks == old(tasks) + (if reached then {j} else {})
      ensures repo.Rows() == if reached then CompleteRow(old(repo.Rows()), j, owner)
        else RetryRow(old(repo.Rows()), j, owner, retryAt)
    {
      var ok := Enqueue(j, reached);
      run, after := Take(before, soFar, middle, Action.Enqueue(owner, reached));
      if !ok {
        repo.RetryOutbox(j, owner, retryAt);
        run, after := Take(before, run, after, DeferFirst(owner, true, retryAt));
      } else {
        repo.CompleteOutbox(j, owner);
        run, after := Take(before, run, after, CompleteFirst(owner, true));
      }
    }
  }
}
