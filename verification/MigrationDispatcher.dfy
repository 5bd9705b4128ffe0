/** The dispatcher's round: claim, hand to the queue, and give back what the queue would not take. */
module MigrationDispatcher {
  import opened Common
  import opened MigrationModel
  import opened MigrationProtocol
  import opened MigrationRepository

  const ROUNDS := 50

  /** A task is named after the item and the attempt, so the same claim is queued once. */
  datatype TaskId = TaskId(migration: Id, obj: Id, attempts: nat)

  function TaskOf(work: Work): TaskId {
    TaskId(work.migration, work.obj, work.attempts)
  }

  /** What one pass meets: when it starts, which locks it gets, and whether the queue can be reached. */
  datatype Pass = Pass(now: real, lease: real, locked: set<Id>, busy: set<Pair>, reached: bool, availableAt: real)

  /** The works that a run claims, in order, each with the attempt that its own claim counted. */
  ghost function ClaimedIn(hash: Hash, before: World, run: seq<Action>): seq<Work>
    decreases |run|, 1
  {
    if run == [] then [] else ClaimedFrom(hash, before, run)
  }

  ghost function ClaimedFrom(hash: Hash, before: World, run: seq<Action>): seq<Work>
    requires run != []
    decreases |run|, 0
  {
    ClaimedBy(before.db, run[0]) + ClaimedIn(hash, Apply(hash, before, run[0]), run[1..])
  }

  ghost function ClaimedBy(db: Db, a: Action): seq<Work> {
    if a.ClaimWork? && a.chosen.Some? && a.chosen.value in db.items && a.chosen.value.0 in db.migrations then
      [WorkFor(db, a.chosen.value, db.items[a.chosen.value].attempts + 1)]
    else []
  }

  lemma {:induction false} ClaimedInMore(hash: Hash, before: World, run: seq<Action>, middle: World, a: Action)
    requires Leads(hash, before, run, middle)
    ensures ClaimedIn(hash, before, run + [a]) == ClaimedIn(hash, before, run) + ClaimedBy(middle.db, a)
    decreases |run|
  {
    if run == [] {
      assert [a][1..] == [];
      assert run + [a] == [a];
      assert ClaimedIn(hash, before, [a]) == ClaimedFrom(hash, before, [a]) == ClaimedBy(before.db, a) + [];
    } else {
      assert LeadsFrom(hash, before, run, middle);
      ClaimedInMore(hash, Apply(hash, before, run[0]), run[1..], middle, a);
      assert (run + [a])[1..] == run[1..] + [a];
      assert ClaimedIn(hash, before, run) == ClaimedFrom(hash, before, run);
      assert ClaimedIn(hash, before, run + [a]) == ClaimedFrom(hash, before, run + [a]);
    }
  }

  function TasksOf(works: seq<Work>): set<TaskId> {
    set work | work in works :: TaskOf(work)
  }

  lemma OneMoreTask(works: seq<Work>, work: Work)
    ensures TasksOf(works + [work]) == TasksOf(works) + {TaskOf(work)}
  {}

  function AsList(work: Option<Work>): seq<Work> {
    if work.Some? then [work.value] else []
  }

  class Dispatcher {
    const repo: Repository
    var tasks: set<TaskId>

    constructor (repo: Repository)
      ensures this.repo == repo && tasks == {}
    {
      this.repo := repo;
      tasks := {};
    }

    /** False when the queue cannot be reached; a task that is there already counts as queued. */
    method EnqueueMigration(work: Work, reached: bool) returns (ok: bool)
      modifies this
      ensures ok == reached
      ensures tasks == old(tasks) + (if reached then {TaskId(work.migration, work.obj, work.attempts)} else {})
    {
      if reached { tasks := tasks + {TaskOf(work)}; }
      return reached;
    }

    /**
     Every work that the round claims, in the order of the claims and with its own attempt,
     is queued or, the last one only, given back: its item is pending again and without a
     lease. A round stops early only when the queue fails or nothing is left to claim. It
     is a run of the protocol.
     */
    method DispatchMigrations(hash: Hash, passes: seq<Pass>, ghost before: World)
      returns (queued: seq<Work>, returned: Option<Work>, ghost run: seq<Action>, ghost after: World)
      requires |passes| == ROUNDS && before.db == repo.Rows()
      modifies this, repo
      ensures tasks == old(tasks) + set work | work in queued :: TaskId(work.migration, work.obj, work.attempts)
      ensures |queued| + |AsList(returned)| <= ROUNDS
      ensures ClaimedIn(hash, before, run) == queued + AsList(returned)
      ensures |after.claims| == |before.claims| + |queued| + |AsList(returned)|
      ensures |queued| < ROUNDS && returned.None? ==>
                run != [] && run[|run| - 1].ClaimWork? && run[|run| - 1].chosen.None?
      ensures returned.Some? ==> IsReleased(repo.items, ItemOf(returned).value)
      ensures Leads(hash, before, run, after) && after.db == repo.Rows() && after.stores == before.stores
      ensures after.workers == before.workers
    {
      queued, returned, run, after := [], None, [], before;
      for k := 0 to ROUNDS
        invariant |queued| == k && returned.None?
        invariant tasks == old(tasks) + TasksOf(queued)
        invariant Leads(hash, before, run, after) && after.db == repo.Rows() && after.stores == before.stores
        invariant after.workers == before.workers
        invariant ClaimedIn(hash, before, run) == queued && |after.claims| == |before.claims| + |queued|
      {
        var work;
        work, run, after := ClaimNext(hash, passes[k], before, run, after);
        if work.None? { return; }
        var ok := EnqueueMigration(work.value, passes[k].reached);
        if !ok {
          run, after := GiveBack(hash, work.value, passes[k].availableAt, before, run, after);
          returned := work;
          return;
        }
        OneMoreTask(queued, work.value);
        queued := queued + [work.value];
      }
    }

    method ClaimNext(hash: Hash, pass: Pass, ghost before: World, ghost soFar: seq<Action>, ghost middle: World)
      returns (work: Option<Work>, ghost run: seq<Action>, ghost after: World)
      requires Leads(hash, before, soFar, middle) && middle.db == repo.Rows()
      modifies repo
      ensures Leads(hash, before, run, after) && after.db == repo.Rows()
      ensures after.stores == middle.stores && after.workers == middle.workers
      ensures work.Some? ==> ItemOf(work).value in repo.items
      ensures ClaimedIn(hash, before, run) == ClaimedIn(hash, before, soFar) + AsList(work)
      ensures |after.claims| == |middle.claims| + |AsList(work)|
      ensures run != [] && run[|run| - 1].ClaimWork? && run[|run| - 1].chosen == ItemOf(work)
    {
      run, after := WaitUntil(hash, pass.now, before, soFar, middle);
      work := repo.ClaimMigrationWork(pass.now, pass.lease, pass.locked, pass.busy);
      ghost var claim := ClaimWork(pass.now, pass.lease, pass.locked, pass.busy, ItemOf(work));
      ClaimedInMore(hash, before, run, after, claim);
      run, after := Take(hash, before, run, after, claim);
    }

    /** A claimed work that the queue would not take. */
    method GiveBack(hash: Hash, work: Work, availableAt: real, ghost before: World, ghost soFar: seq<Action>,
                    ghost middle: World)
      returns (ghost run: seq<Action>, ghost after: World)
      requires Leads(hash, before, soFar, middle) && middle.db == repo.Rows()
      requires Pair(work.migration, work.obj) in repo.items
      modifies repo
      ensures Leads(hash, before, run, after) && after.db == repo.Rows()
      ensures after.stores == middle.stores && after.workers == middle.workers && after.claims == middle.claims
      ensures ClaimedIn(hash, before, run) == ClaimedIn(hash, before, soFar)
      ensures IsReleased(repo.items, Pair(work.migration, work.obj))
    {
      repo.ReleaseMigrationWork(work.migration, work.obj, true, availableAt);
      ghost var release := ReleaseUnqueued(Pair(work.migration, work.obj), availableAt);
      ClaimedInMore(hash, before, soFar, middle, release);
      run, after := Take(hash, before, soFar, middle, release);
    }
  }

  predicate IsReleased(items: map<Pair, Item>, i: Pair) {
    i in items && items[i].state == ItemPending && items[i].lease.None?
  }

  lemma WaitUntil(hash: Hash, now: real, before: World, soFar: seq<Action>, middle: World)
    returns (run: seq<Action>, after: World)
    requires Leads(hash, before, soFar, middle)
    ensures Leads(hash, before, run, after) && after == middle.(clock := after.clock) && now <= after.clock
    ensures ClaimedIn(hash, before, run) == ClaimedIn(hash, before, soFar)
  {
    var tick := Tick(if middle.clock < now then now else middle.clock);
    ClaimedInMore(hash, before, soFar, middle, tick);
    run, after := Take(hash, before, soFar, middle, tick);
  }
}
