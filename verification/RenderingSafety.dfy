/**
 From a template's source to the data that its reports are rendered with. Templates and
 jobs share one history here: publishing a version is the step that lets jobs use it.
 */
module RenderingSafety {
  import opened Common
  import opened ContractSchema
  import opened ContractTree
  import D = ContractDocument
  import A = ContractAnalysis
  import J = JobProtocol
  import JH = JobHandoff
  import JM = JobModel
  import JR = JobRuns
  import JS = JobSafety
  import T = TemplateProtocol
  import TM = TemplateModel
  import TR = TemplateRuns
  import TS = TemplateSafety

  /** The row numbers of templates, by their slugs, which are unique. */
  type Numbering = string -> Id
  type SchemaHash = Schema -> Digest

  /** How jobs refer to a version. */
  function VersionOf(ids: Numbering, key: T.Key): JM.VersionId {
    JM.VersionId(ids(key.slug), key.number)
  }

  datatype Site = Site(jobs: J.World, templates: T.World)

  /** A step of either part; what jobs may use changes only with the templates. */
  datatype Step = OfJobs(j: J.Action) | OfTemplates(t: T.Action)

  ghost predicate MayStep(decode: T.Decoder, renders: T.Renderer, s: Site, step: Step) {
    match step
    case OfJobs(a) => J.Enabled(s.jobs, a) && !a.Publish?
    case OfTemplates(a) => T.Enabled(decode, renders, s.templates, a)
  }

  /** The step makes an approved version a published one. */
  predicate Publishes(w: T.World, a: T.Action) {
    && a.FinishPublish? && a.handler in w.handlers
    && TM.CanPublish(w.templates, w.handlers[a.handler].key.slug, w.handlers[a.handler].key.number)
  }

  /** The published row as jobs see it. */
  function Publication(ids: Numbering, hash: SchemaHash, w: T.World, a: T.Action): J.Action
    requires Publishes(w, a)
  {
    var key := w.handlers[a.handler].key;
    var schema := T.Row(w, key).schema;
    J.Publish(key.slug, VersionOf(ids, key), JM.PublishedVersion(schema, hash(schema)))
  }

  ghost function JobsAfter(ids: Numbering, hash: SchemaHash, s: Site, step: Step): J.World {
    match step
    case OfJobs(a) => J.Apply(s.jobs, a)
    case OfTemplates(a) =>
      if Publishes(s.templates, a) then J.Apply(s.jobs, Publication(ids, hash, s.templates, a)) else s.jobs
  }

  ghost function Stepped(ids: Numbering, hash: SchemaHash, decode: T.Decoder, s: Site, step: Step): Site {
    Site(JobsAfter(ids, hash, s, step),
         if step.OfTemplates? then T.Apply(decode, s.templates, step.t) else s.templates)
  }

  /** What jobs take for a published version is that version's row. */
  ghost predicate IsRow(ids: Numbering, s: Site, v: JM.VersionId, key: T.Key) {
    && v in s.jobs.db.published && v == VersionOf(ids, key)
    && T.At(s.templates, key) && T.Row(s.templates, key).status.Published?
    && s.jobs.db.published[v].schema == T.Row(s.templates, key).schema
  }

  ghost predicate HasRow(ids: Numbering, s: Site, v: JM.VersionId) {
    exists key :: IsRow(ids, s, v, key)
  }

  ghost predicate Linked(ids: Numbering, s: Site) {
    forall v | v in s.jobs.db.published :: HasRow(ids, s, v)
  }

  ghost predicate Initial(ids: Numbering, s: Site) {
    J.Initial(s.jobs) && T.Initial(s.templates) && Linked(ids, s)
  }

  ghost predicate StepAt(ids: Numbering, hash: SchemaHash, decode: T.Decoder, renders: T.Renderer,
                         sites: seq<Site>, steps: seq<Step>, i: nat)
    requires i < |steps| && |sites| == |steps| + 1
  {
    MayStep(decode, renders, sites[i], steps[i]) && sites[i + 1] == Stepped(ids, hash, decode, sites[i], steps[i])
  }

  ghost predicate Trace(ids: Numbering, hash: SchemaHash, decode: T.Decoder, renders: T.Renderer,
                        sites: seq<Site>, steps: seq<Step>) {
    && |sites| == |steps| + 1 && Initial(ids, sites[0])
    && (forall i | 0 <= i < |steps| :: StepAt(ids, hash, decode, renders, sites, steps, i))
  }

  ghost predicate Inv(ids: Numbering, decode: T.Decoder, renders: T.Renderer, s: Site) {
    J.JobsInv(s.jobs.db) && J.HandoffInv(s.jobs) && T.Inv(decode, renders, s.templates) && Linked(ids, s)
  }

  // ---- Every step keeps the two in agreement ----

  /** No step of the jobs touches what is published. */
  lemma PublishedStays(w: J.World, a: J.Action)
    requires !a.Publish?
    ensures J.Apply(w, a).db.published == w.db.published
  {}

  /** A published row stays as it is. */
  lemma RowStays(ids: Numbering, decode: T.Decoder, renders: T.Renderer, s: Site, a: T.Action, jobs: J.World,
                 v: JM.VersionId, key: T.Key)
    requires T.Inv(decode, renders, s.templates) && T.Enabled(decode, renders, s.templates, a)
    requires IsRow(ids, s, v, key)
    requires v in jobs.db.published && jobs.db.published[v] == s.jobs.db.published[v]
    ensures IsRow(ids, Site(jobs, T.Apply(decode, s.templates, a)), v, key)
  {
    TR.StepKeepsVersion(decode, renders, s.templates, a, key);
  }

  /** A version that is being published is one that jobs did not have. */
  lemma PublicationIsNew(ids: Numbering, hash: SchemaHash, s: Site, a: T.Action)
    requires forall x, y :: ids(x) == ids(y) ==> x == y
    requires Linked(ids, s) && Publishes(s.templates, a)
    ensures J.Enabled(s.jobs, Publication(ids, hash, s.templates, a))
  {
    OwnRow(ids, s, s.templates.handlers[a.handler].key);
  }

  /** The row that jobs know a version by is its own. */
  lemma OwnRow(ids: Numbering, s: Site, key: T.Key)
    requires forall x, y :: ids(x) == ids(y) ==> x == y
    requires Linked(ids, s)
    ensures VersionOf(ids, key) in s.jobs.db.published ==> IsRow(ids, s, VersionOf(ids, key), key)
  {
    var v := VersionOf(ids, key);
    if v in s.jobs.db.published {
      assert HasRow(ids, s, v);
      var found :| IsRow(ids, s, v, found);
      assert ids(found.slug) == ids(key.slug);
    }
  }

  lemma StepKeepsLinked(ids: Numbering, hash: SchemaHash, decode: T.Decoder, renders: T.Renderer, s: Site, step: Step)
    requires forall x, y :: ids(x) == ids(y) ==> x == y
    requires Inv(ids, decode, renders, s) && MayStep(decode, renders, s, step)
    ensures Linked(ids, Stepped(ids, hash, decode, s, step))
  {
    forall v | v in Stepped(ids, hash, decode, s, step).jobs.db.published
      ensures HasRow(ids, Stepped(ids, hash, decode, s, step), v)
    {
      if v in s.jobs.db.published {
        KnownRowStays(ids, hash, decode, renders, s, step, v);
      } else {
        NewRowIsPublished(ids, hash, decode, s, step, v);
      }
    }
  }

  /** Publishing adds one version to those that jobs may use. */
  lemma PublishingAddsOne(w: J.World, a: J.Action)
    requires a.Publish?
    ensures J.Apply(w, a).db.published == w.db.published[a.version := a.contract]
  {}

  lemma KnownStays(ids: Numbering, hash: SchemaHash, s: Site, step: Step, v: JM.VersionId)
    requires forall x, y :: ids(x) == ids(y) ==> x == y
    requires Linked(ids, s) && v in s.jobs.db.published
    requires step.OfJobs? ==> !step.j.Publish?
    ensures var published := JobsAfter(ids, hash, s, step).db.published;
            v in published && published[v] == s.jobs.db.published[v]
  {
    match step {
      case OfJobs(a) => PublishedStays(s.jobs, a);
      case OfTemplates(a) =>
        if Publishes(s.templates, a) {
          PublicationIsNew(ids, hash, s, a);
          PublishingAddsOne(s.jobs, Publication(ids, hash, s.templates, a));
        }
    }
  }

  /** Publishing sets the row's status and keeps its schema. */
  lemma PublishedRow(decode: T.Decoder, w: T.World, a: T.Action, key: T.Key)
    requires Publishes(w, a) && key == w.handlers[a.handler].key
    ensures T.At(T.Apply(decode, w, a), key) && T.Row(T.Apply(decode, w, a), key).status.Published?
    ensures T.Row(T.Apply(decode, w, a), key).schema == T.Row(w, key).schema
  {}

  lemma NewRowIsPublished(ids: Numbering, hash: SchemaHash, decode: T.Decoder, s: Site, step: Step, v: JM.VersionId)
    requires step.OfJobs? ==> !step.j.Publish?
    requires v in JobsAfter(ids, hash, s, step).db.published && v !in s.jobs.db.published
    ensures HasRow(ids, Stepped(ids, hash, decode, s, step), v)
  {
    if step.OfJobs? {
      PublishedStays(s.jobs, step.j);
      assert false;
    } else {
      var key := s.templates.handlers[step.t.handler].key;
      PublishingAddsOne(s.jobs, Publication(ids, hash, s.templates, step.t));
      PublishedRow(decode, s.templates, step.t, key);
      assert IsRow(ids, Stepped(ids, hash, decode, s, step), v, key);
    }
  }

  lemma KnownRowStays(ids: Numbering, hash: SchemaHash, decode: T.Decoder, renders: T.Renderer, s: Site, step: Step,
                      v: JM.VersionId)
    requires forall x, y :: ids(x) == ids(y) ==> x == y
    requires Inv(ids, decode, renders, s) && MayStep(decode, renders, s, step) && v in s.jobs.db.published
    ensures HasRow(ids, Stepped(ids, hash, decode, s, step), v)
  {
    var s' := Stepped(ids, hash, decode, s, step);
    KnownStays(ids, hash, s, step, v);
    assert HasRow(ids, s, v);
    var key :| IsRow(ids, s, v, key);
    if step.OfTemplates? { RowStays(ids, decode, renders, s, step.t, s'.jobs, v, key); }
    assert IsRow(ids, s', v, key);
  }

  lemma StepKeepsInv(ids: Numbering, hash: SchemaHash, decode: T.Decoder, renders: T.Renderer, s: Site, step: Step)
    requires forall x, y :: ids(x) == ids(y) ==> x == y
    requires Inv(ids, decode, renders, s) && MayStep(decode, renders, s, step)
    ensures Inv(ids, decode, renders, Stepped(ids, hash, decode, s, step))
    ensures Stepped(ids, hash, decode, s, step).templates.seeded == s.templates.seeded
  {
    StepKeepsLinked(ids, hash, decode, renders, s, step);
    match step {
      case OfJobs(a) =>
        JS.StepKeepsJobs(s.jobs, a);
        JH.StepKeepsHandoff(s.jobs, a);
      case OfTemplates(a) =>
        TS.StepKeepsInv(decode, renders, s.templates, a);
        TR.SeedIsKept(decode, s.templates, a);
        if Publishes(s.templates, a) {
          PublicationIsNew(ids, hash, s, a);
          JS.StepKeepsJobs(s.jobs, Publication(ids, hash, s.templates, a));
          JH.StepKeepsHandoff(s.jobs, Publication(ids, hash, s.templates, a));
        }
    }
  }

  lemma {:induction false} ReachableHolds(ids: Numbering, hash: SchemaHash, decode: T.Decoder, renders: T.Renderer,
                                          sites: seq<Site>, steps: seq<Step>, n: nat)
    requires forall x, y :: ids(x) == ids(y) ==> x == y
    requires Trace(ids, hash, decode, renders, sites, steps) && n < |sites|
    ensures Inv(ids, decode, renders, sites[n]) && sites[n].templates.seeded == sites[0].templates.seeded
  {
    if n == 0 {
      JR.ReachableHolds([sites[0].jobs], [], 0);
      TR.InitialHolds(decode, renders, sites[0].templates);
    } else {
      ReachableHolds(ids, hash, decode, renders, sites, steps, n - 1);
      assert StepAt(ids, hash, decode, renders, sites, steps, n - 1);
      StepKeepsInv(ids, hash, decode, renders, sites[n - 1], steps[n - 1]);
    }
  }

  // ---- What is rendered is safe ----

  /** Every job is pinned to a published row of the templates. */
  lemma JobsRenderPublishedRows(ids: Numbering, hash: SchemaHash, decode: T.Decoder, renders: T.Renderer,
                                sites: seq<Site>, steps: seq<Step>, n: nat, j: Id) returns (key: T.Key)
    requires forall x, y :: ids(x) == ids(y) ==> x == y
    requires Trace(ids, hash, decode, renders, sites, steps) && n < |sites| && j in sites[n].jobs.db.jobs
    ensures IsRow(ids, sites[n], sites[n].jobs.db.jobs[j].version, key)
    ensures Conforms(T.Row(sites[n].templates, key).schema, sites[n].jobs.db.jobs[j].data)
  {
    ReachableHolds(ids, hash, decode, renders, sites, steps, n);
    assert J.JobAgrees(sites[n].jobs.db, j);
    assert HasRow(ids, sites[n], sites[n].jobs.db.jobs[j].version);
    key :| IsRow(ids, sites[n], sites[n].jobs.db.jobs[j].version, key);
  }

  /** A published row's schema is that of its own source's contract, which has no complaint. */
  lemma RowIsAnalysed(decode: T.Decoder, renders: T.Renderer, w: T.World, key: T.Key)
    requires T.Inv(decode, renders, w) && T.At(w, key)
    requires T.Row(w, key).status.Published? && key !in w.seeded
    ensures var row := T.Row(w, key);
            var contract := A.Analyze(row.source, decode, row.sample);
            contract.Contract? && contract.schema == row.schema && contract.diagnostics == []
  {
    assert T.RowAgrees(decode, renders, w, key);
  }

  /**
   Whatever happens to templates and jobs, the data of every job can be followed along
   every access, binding and loop written in the source of the version it is pinned to,
   and no access of that source was left unread.
   */
  lemma EveryWrittenAccessIsSafe(ids: Numbering, hash: SchemaHash, decode: T.Decoder, renders: T.Renderer,
                                 sites: seq<Site>, steps: seq<Step>, n: nat, j: Id, key: T.Key,
                                 doc: seq<D.Item>, k: nat, target: A.Alias)
    requires forall x, y :: ids(x) == ids(y) ==> x == y
    requires Trace(ids, hash, decode, renders, sites, steps) && n < |sites| && j in sites[n].jobs.db.jobs
    requires T.At(sites[n].templates, key) && sites[n].jobs.db.jobs[j].version == VersionOf(ids, key)
    requires key !in sites[0].templates.seeded
    requires D.ReadsAs(T.Row(sites[n].templates, key).source, decode, doc) && D.Names(doc, k, target)
    ensures var row := T.Row(sites[n].templates, key);
            && A.Analyze(row.source, decode, row.sample).Contract?
            && Follows(sites[n].jobs.db.jobs[j].data, BuildTree(A.Analyze(row.source, decode, row.sample).paths),
                       target.parts)
    ensures D.Complaints(doc[k].chain.ending) == []
  {
    var row := T.Row(sites[n].templates, key);
    ReachableHolds(ids, hash, decode, renders, sites, steps, n);
    assert J.JobAgrees(sites[n].jobs.db, j);
    OwnRow(ids, sites[n], key);
    RowIsAnalysed(decode, renders, sites[n].templates, key);
    D.ContractIsSafe(row.source, decode, row.sample, sites[n].jobs.db.jobs[j].data, doc, k, target);
  }
}
