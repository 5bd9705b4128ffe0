/**
 The job protocol with what workers do besides: a delivery starts an attempt, renders,
 stores the report under a key that names the job, and records it. Deliveries outlive
 their leases, and nothing stops a late one from storing. `owner` reads the job off a
 key, and `hash` is the digest that the stores answer with.
 */
module JobDeliveries {
  import opened Common
  import opened JobModel
  import opened JobProtocol
  import opened JobSafety
  import opened JobHandoff

  type Owner = string -> Id

  datatype Slot = Slot(profile: Id, key: string)

  datatype Rendering = Rendering(slot: Slot, contents: Bytes)

  /** A worker on one attempt, and what it has stored. */
  datatype Delivery = Delivery(job: Id, worker: Id, attempt: nat, put: Option<Rendering>)

  datatype Site = Site(world: World, stores: map<Slot, Bytes>, deliveries: map<Id, Delivery>)

  datatype Move =
    | Other(a: Action)
    | Begin(delivery: Id, job: Id, worker: Id, until: real)
    | Put(delivery: Id, rendering: Rendering)
    | Record(delivery: Id)
    | Quit(delivery: Id)

  ghost predicate MayMove(owner: Owner, s: Site, m: Move) {
    match m
    case Other(a) => Enabled(s.world, a) && !a.StartJob? && !a.DeliverJob?
    case Begin(d, j, _, _) => d !in s.deliveries && CanStart(s.world.db, j)
    case Put(d, r) => d in s.deliveries && s.deliveries[d].put.None? && owner(r.slot.key) == s.deliveries[d].job
    case Record(d) => d in s.deliveries && s.deliveries[d].put.Some?
    case Quit(d) => d in s.deliveries
  }

  function ReportOf(hash: Hash, r: Rendering): StoredReport {
    StoredReport(r.slot.key, hash(r.contents), |r.contents|)
  }

  function Recording(hash: Hash, delivery: Delivery): Action
    requires delivery.put.Some?
  {
    DeliverJob(delivery.job, delivery.worker, delivery.put.value.slot.profile, ReportOf(hash, delivery.put.value))
  }

  function Moved(hash: Hash, s: Site, m: Move): Site {
    match m
    case Other(a) => s.(world := Apply(s.world, a))
    case Begin(d, j, worker, until) =>
      if CanStart(s.world.db, j) then
        s.(world := Apply(s.world, StartJob(j, worker, until)),
           deliveries := s.deliveries[d := Delivery(j, worker, s.world.db.jobs[j].attempts + 1, None)])
      else s
    case Put(d, r) =>
      if d in s.deliveries then
        s.(stores := s.stores[r.slot := r.contents], deliveries := s.deliveries[d := s.deliveries[d].(put := Some(r))])
      else s
    case Record(d) =>
      if d in s.deliveries && s.deliveries[d].put.Some? then
        s.(world := Apply(s.world, Recording(hash, s.deliveries[d])), deliveries := s.deliveries - {d})
      else s
    case Quit(d) => s.(deliveries := s.deliveries - {d})
  }

  /** `after` is where the moves lead from `before`. */
  ghost predicate MovesTo(owner: Owner, hash: Hash, before: Site, moves: seq<Move>, after: Site)
    decreases |moves|, 1
  {
    if moves == [] then after == before else MovesFrom(owner, hash, before, moves, after)
  }

  ghost predicate MovesFrom(owner: Owner, hash: Hash, before: Site, moves: seq<Move>, after: Site)
    requires moves != []
    decreases |moves|, 0
  {
    MayMove(owner, before, moves[0]) && MovesTo(owner, hash, Moved(hash, before, moves[0]), moves[1..], after)
  }

  lemma {:induction false} MovesOn(owner: Owner, hash: Hash, before: Site, moves: seq<Move>, middle: Site, next: Move)
    requires MovesTo(owner, hash, before, moves, middle) && MayMove(owner, middle, next)
    ensures MovesTo(owner, hash, before, moves + [next], Moved(hash, middle, next))
    decreases |moves|
  {
    if moves == [] {
      assert [next][1..] == [];
      assert MovesFrom(owner, hash, before, [next], Moved(hash, before, next));
    } else {
      assert MovesFrom(owner, hash, before, moves, middle);
      MovesOn(owner, hash, Moved(hash, before, moves[0]), moves[1..], middle, next);
      assert (moves + [next])[1..] == moves[1..] + [next];
      assert MovesFrom(owner, hash, before, moves + [next], Moved(hash, middle, next));
    }
  }

  lemma TakeMove(owner: Owner, hash: Hash, before: Site, moves: seq<Move>, middle: Site, next: Move)
    returns (moves': seq<Move>, after: Site)
    requires MovesTo(owner, hash, before, moves, middle) && MayMove(owner, middle, next)
    ensures MovesTo(owner, hash, before, moves', after) && after == Moved(hash, middle, next)
    ensures moves' == moves + [next]
  {
    MovesOn(owner, hash, before, moves, middle, next);
    moves', after := moves + [next], Moved(hash, middle, next);
  }

  // ---- Every move is a step of the job protocol, or none ----

  function StepsOf(hash: Hash, s: Site, m: Move): seq<Action> {
    match m
    case Other(a) => [a]
    case Begin(_, j, worker, until) => [StartJob(j, worker, until)]
    case Record(d) => if d in s.deliveries && s.deliveries[d].put.Some? then [Recording(hash, s.deliveries[d])] else []
    case _ => []
  }

  /** So all that is proved of runs of the job protocol holds of deliveries too. */
  lemma MoveIsRun(owner: Owner, hash: Hash, s: Site, m: Move)
    requires MayMove(owner, s, m)
    ensures Leads(s.world, StepsOf(hash, s, m), Moved(hash, s, m).world)
  {
    var steps := StepsOf(hash, s, m);
    if steps != [] {
      assert steps[1..] == [];
      assert LeadsFrom(s.world, steps, Moved(hash, s, m).world);
    }
  }

  lemma MoveKeepsJobs(owner: Owner, hash: Hash, s: Site, m: Move)
    requires MayMove(owner, s, m) && JobsInv(s.world.db) && HandoffInv(s.world)
    ensures var w := Moved(hash, s, m).world; JobsInv(w.db) && HandoffInv(w) && Keeps(s.world.db, w.db)
  {
    var steps := StepsOf(hash, s, m);
    if steps == [] {
      Stay(s.world.db);
    } else {
      StepKeepsJobs(s.world, steps[0]);
      StepKeepsHandoff(s.world, steps[0]);
    }
  }

  // ---- Attempts and deliveries ----

  /** A delivery is of an attempt that the job has begun, and no two are of the same one. */
  ghost predicate DeliveriesAgree(owner: Owner, s: Site) {
    && (forall d | d in s.deliveries :: DeliveryAgrees(owner, s, s.deliveries[d]))
    && (forall d, e | d in s.deliveries && e in s.deliveries && d != e && s.deliveries[d].job == s.deliveries[e].job ::
          s.deliveries[d].attempt != s.deliveries[e].attempt)
  }

  ghost predicate DeliveryAgrees(owner: Owner, s: Site, d: Delivery) {
    && IsJob(s.world.db, d.job) && 1 <= d.attempt <= s.world.db.jobs[d.job].attempts
    && (d.put.Some? ==> owner(d.put.value.slot.key) == d.job)
  }

  /** Reports are recorded under keys that name their jobs. */
  ghost predicate KeysAgree(owner: Owner, db: Db) {
    forall j | j in db.objects :: owner(db.objects[j].key) == j
  }

  /** What a job that was attempted only once has stored is still there, and once recorded nobody will store again. */
  ghost predicate OnceIsKept(hash: Hash, s: Site) {
    && (forall d | d in s.deliveries :: StillStored(s, s.deliveries[d]))
    && (forall j | j in s.world.db.jobs && s.world.db.jobs[j].status == Completed && s.world.db.jobs[j].attempts == 1 ::
          IsIntact(hash, s, j) && !AnyoneOn(s, j))
  }

  ghost predicate StillStored(s: Site, d: Delivery) {
    d.put.Some? && d.job in s.world.db.jobs && s.world.db.jobs[d.job].attempts == 1 ==>
      d.put.value.slot in s.stores && s.stores[d.put.value.slot] == d.put.value.contents
  }

  /** The report can be read: wherever it is placed the store holds contents with its digest. */
  ghost predicate IsIntact(hash: Hash, s: Site, j: Id) {
    j in s.world.db.objects && forall profile | ReportAt(j, profile) in s.world.db.placements ::
        IsIntactAt(hash, s, j, profile)
  }

  ghost predicate IsIntactAt(hash: Hash, s: Site, j: Id, profile: Id)
    requires j in s.world.db.objects
  {
    var slot := Slot(profile, s.world.db.objects[j].key);
    slot in s.stores && hash(s.stores[slot]) == s.world.db.objects[j].digest
  }

  ghost predicate AnyoneOn(s: Site, j: Id) {
    exists d :: d in s.deliveries && s.deliveries[d].job == j
  }

  /** Some delivery of the job has not stored yet, and may. */
  ghost predicate IsPending(s: Site, j: Id) {
    exists d :: d in s.deliveries && s.deliveries[d].job == j && s.deliveries[d].put.None?
  }

  ghost predicate SiteInv(owner: Owner, hash: Hash, s: Site) {
    && JobsInv(s.world.db) && HandoffInv(s.world)
    && DeliveriesAgree(owner, s) && KeysAgree(owner, s.world.db) && OnceIsKept(hash, s)
  }

  ghost predicate InitialSite(s: Site) {
    JobProtocol.Initial(s.world) && s.deliveries == map[]
  }
}
