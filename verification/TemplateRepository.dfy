/** The template repository as it runs, and the handlers that approve and publish with it. */
module TemplateRepository {
  import opened Common
  import opened Json
  import opened ContractSchema
  import opened TemplateModel
  import A = ContractAnalysis
  import V = ContractValidate
  import P = TemplateProtocol

  datatype Error = NoError | NotFound | Conflict | AssetLimit | AssetStore

  lemma {:induction false} LargestExists(numbers: set<nat>) returns (largest: nat)
    requires numbers != {}
    ensures largest in numbers && forall k | k in numbers :: k <= largest
  {
    var x :| x in numbers;
    largest := x;
    if numbers != {x} {
      var other := LargestExists(numbers - {x});
      if other > x { largest := other; }
      forall k | k in numbers ensures k <= largest { assert k == x || k in numbers - {x}; }
    }
  }

  /** Every other version of every template is as it was. */
  ghost predicate OthersStay(before: Templates, after: Templates, slug: string, n: nat) {
    && after.Keys == before.Keys
    && (forall s | s in before && s != slug :: after[s] == before[s])
    && (slug in before ==> after[slug] - {n} == before[slug] - {n})
  }

  /** The template has one more version: a draft with this content and the assets of its base, if it has any. */
  ghost predicate IsNewVersion(before: Templates, after: Templates, slug: string, n: nat, c: Content,
                               base: Option<nat>, incarnation: nat) {
    && slug in before && n !in before[slug] && Exists(after, slug, n) && OthersStay(before, after, slug, n)
    && var assets := match base
                     case None => map[]
                     case Some(b) => if b in before[slug] then before[slug][b].assets else map[];
       after[slug][n] == Version(Draft, c.source, c.sample, c.schema, assets, if assets == map[] then 0 else 1,
                                 incarnation)
  }

  lemma CreatedIsNew(t: Templates, slug: string, n: nat, c: Content, base: Option<nat>, incarnation: nat)
    requires CanCreateVersion(t, slug, n, base)
    ensures IsNewVersion(t, TemplateModel.CreateVersion(t, slug, n, c, base, incarnation), slug, n, c, base,
                         incarnation)
  {}

  lemma CandidateIsPending(t: Templates, slug: string)
    requires slug in t
    ensures HasCandidate(t[slug]) <==> exists k :: IsPending(t, slug, k)
  {
    if HasCandidate(t[slug]) {
      var k :| k in t[slug] && t[slug][k].status != Published;
      assert IsPending(t, slug, k);
    }
  }

  /** A draft or an approved version. */
  ghost predicate IsPending(t: Templates, slug: string, k: nat) {
    slug in t && k in t[slug] && t[slug][k].status in {Draft, Approved}
  }

  class Repository {
    var templates: Templates
    var next: nat

    method Create(slug: string, c: Content) returns (error: Error)
      modifies this
      ensures next == old(next) + (if error.NoError? then 1 else 0)
      ensures templates == CreateTemplate(old(templates), slug, c, old(next))
      ensures error == (if slug in old(templates) then Conflict else NoError)
      ensures error.Conflict? ==> templates == old(templates)
      ensures error.NoError? ==>
                templates == old(templates)[slug := map[1 := Version(Draft, c.source, c.sample, c.schema, map[], 0,
                                                                     old(next))]]
    {
      if slug in templates { return Conflict; }
      templates := templates[slug := map[1 := NewDraft(c, map[], next)]];
      next := next + 1;
      return NoError;
    }

    /** One more than the highest number so far. */
    method NextNumber(slug: string) returns (n: nat)
      requires slug in templates
      ensures (forall k | k in templates[slug] :: k < n) && n > 0
      ensures templates[slug] == map[] ==> n == 1
      ensures templates[slug] != map[] ==> n - 1 in templates[slug]
    {
      var numbers := templates[slug].Keys;
      if numbers == {} { return 1; }
      ghost var largest := LargestExists(numbers);
      var top :| top in numbers && forall k | k in numbers :: k <= top;
      return top + 1;
    }

    /** Inserts the draft, then copies the base's assets; a refused insert or a missing base rolls all back. */
    method CreateVersion(slug: string, c: Content, base: Option<nat>) returns (error: Error, n: nat)
      modifies this
      ensures next == old(next) + (if error.NoError? then 1 else 0)
      ensures error.NotFound? || error.Conflict? || error.NoError?
      ensures error.NoError? <==> exists k :: CanCreateVersion(old(templates), slug, k, base)
      ensures error.NoError? ==> CanCreateVersion(old(templates), slug, n, base)
      ensures error.NoError? ==> templates == TemplateModel.CreateVersion(old(templates), slug, n, c, base, old(next))
      ensures !error.NoError? ==> templates == old(templates)
      ensures error.Conflict? <==> slug in old(templates) && exists k :: IsPending(old(templates), slug, k)
      ensures error.NotFound? <==>
                && (forall k :: !IsPending(old(templates), slug, k))
                && (slug in old(templates) ==> base.Some? && base.value !in old(templates)[slug] && base.value != n)
      ensures slug in old(templates) ==> n > 0 && (forall k | k in old(templates)[slug] :: k < n)
                                         && (n == 1 || n - 1 in old(templates)[slug])
      ensures error.NoError? ==> IsNewVersion(old(templates), templates, slug, n, c, base, old(next))
    {
      if slug !in templates { return NotFound, 0; }
      var m := templates[slug];
      n := NextNumber(slug);
      NextIsUnique(m, n);
      CandidateIsPending(templates, slug);
      if exists k | k in m :: m[k].status != Published { return Conflict, n; }
      var inserted := InsertDraft(m, n, c, base);
      if inserted.None? { return NotFound, n; }
      CreatedIsNew(templates, slug, n, c, base, next);
      templates := templates[slug := inserted.value];
      next := next + 1;
      return NoError, n;
    }

    /** The new row, and then its assets; nothing if the base is not there. */
    method InsertDraft(m: Versions, n: nat, c: Content, base: Option<nat>) returns (inserted: Option<Versions>)
      requires n !in m
      ensures inserted.None? <==> base.Some? && base.value !in m && base.value != n
      ensures inserted.Some? ==> inserted.value == m[n := NewDraft(c, BaseAssets(m, base), next)]
    {
      var versions: Versions := m[n := NewDraft(c, map[], next)];
      if base.Some? {
        if base.value !in versions { return None; }
        var copied := versions[base.value].assets;
        versions := versions[n := versions[n].(assets := copied, revision := if copied == map[] then 0 else 1)];
      }
      assert versions == m[n := NewDraft(c, BaseAssets(m, base), next)];
      return Some(versions);
    }

    method UpdateDraft(slug: string, n: nat, c: Content) returns (error: Error)
      modifies this
      ensures next == old(next)
      ensures templates == TemplateModel.UpdateDraft(old(templates), slug, n, c)
      ensures error == (if IsDraft(old(templates), slug, n) then NoError else Conflict)
      ensures error.NoError? <==> slug in old(templates) && n in old(templates)[slug]
                                  && old(templates)[slug][n].status == Draft
      ensures error.Conflict? ==> templates == old(templates)
      ensures error.NoError? ==>
                && Exists(templates, slug, n) && OthersStay(old(templates), templates, slug, n)
                && var v, was := templates[slug][n], old(templates)[slug][n];
                   && v.source == c.source && v.sample == c.sample && v.schema == c.schema
                   && v.status == was.status && v.assets == was.assets && v.revision == was.revision
                   && v.incarnation == was.incarnation
    {
      if !(slug in templates && n in templates[slug] && templates[slug][n].status == Draft) { return Conflict; }
      SetVersion(slug, n, templates[slug][n].(source := c.source, sample := c.sample, schema := c.schema));
      return NoError;
    }

    method DeleteDraft(slug: string, n: nat) returns (error: Error)
      modifies this
      ensures next == old(next)
      ensures templates == TemplateModel.DeleteDraft(old(templates), slug, n)
      ensures error == (if IsDraft(old(templates), slug, n) then NoError else Conflict)
      ensures error.NoError? <==> slug in old(templates) && n in old(templates)[slug]
                                  && old(templates)[slug][n].status == Draft
      ensures error.Conflict? ==> templates == old(templates)
      ensures error.NoError? ==> !Exists(templates, slug, n) && OthersStay(old(templates), templates, slug, n)
    {
      if !(slug in templates && n in templates[slug] && templates[slug][n].status == Draft) { return Conflict; }
      templates := templates[slug := templates[slug] - {n}];
      return NoError;
    }

    /** The update of one row. */
    method SetVersion(slug: string, n: nat, v: Version)
      requires slug in templates && n in templates[slug]
      modifies this
      ensures templates == Put(old(templates), slug, n, v) && next == old(next)
    {
      var versions: Versions := templates[slug][n := v];
      templates := templates[slug := versions];
    }

    method Measure(assets: map<string, Asset>) returns (total: nat)
      ensures total == Total(assets)
    {
      total := 0;
      var rest := assets;
      while rest != map[]
        invariant total + Total(rest) == Total(assets)
        decreases |rest|
      {
        var name :| name in rest;
        TotalWithout(rest, name);
        total := total + rest[name].size;
        rest := rest - {name};
      }
    }

    /** `stored` says whether the asset's contents reached its store unharmed. */
    method StoreDraftAsset(slug: string, n: nat, name: string, a: Asset, stored: bool) returns (error: Error)
      modifies this
      ensures next == old(next)
      ensures error.NoError? ==> templates == StoreAsset(old(templates), slug, n, name, a)
      ensures !error.NoError? ==> templates == old(templates)
      ensures error.NotFound? <==> !Exists(old(templates), slug, n)
      ensures error.Conflict? <==> Exists(old(templates), slug, n) && old(templates)[slug][n].status != Draft
      ensures error.AssetLimit? <==>
                IsDraft(old(templates), slug, n) && !CanStoreAsset(old(templates), slug, n, name, a)
      ensures error.AssetStore? <==> CanStoreAsset(old(templates), slug, n, name, a) && !stored
      ensures IsDraft(old(templates), slug, n) ==>
                var assets := old(templates)[slug][n].assets;
                error.AssetLimit? <==>
                  || Total(assets - {name}) + a.size > 20 * 1024 * 1024
                  || (|assets| >= 100 && (name in assets ==> assets[name].size == 0))
      ensures error.NoError? ==>
                && Exists(templates, slug, n) && OthersStay(old(templates), templates, slug, n)
                && var was := old(templates)[slug][n];
                   templates[slug][n] == was.(assets := was.assets[name := a], revision := was.revision + 1)
    {
      if slug !in templates || n !in templates[slug] { return NotFound; }
      var v := templates[slug][n];
      if v.status != Draft { return Conflict; }
      var total := Measure(v.assets);
      var existing := if name in v.assets then v.assets[name].size else 0;
      TotalOfOthers(v.assets, name);
      if (existing == 0 && |v.assets| >= MAX_ASSETS) || total - existing + a.size > MAX_BYTES { return AssetLimit; }
      if !stored { return AssetStore; }
      SetVersion(slug, n, v.(assets := v.assets[name := a], revision := v.revision + 1));
      return NoError;
    }

    method DeleteDraftAsset(slug: string, n: nat, name: string) returns (error: Error)
      modifies this
      ensures next == old(next)
      ensures templates == DeleteAsset(old(templates), slug, n, name)
      ensures error.Conflict? <==> Exists(old(templates), slug, n) && old(templates)[slug][n].status != Draft
      ensures error.NoError? <==> IsDraft(old(templates), slug, n) && name in old(templates)[slug][n].assets
      ensures error.NoError? || error.Conflict? || error.NotFound?
      ensures !error.NoError? ==> templates == old(templates)
      ensures error.NoError? ==>
                && Exists(templates, slug, n) && OthersStay(old(templates), templates, slug, n)
                && var was := old(templates)[slug][n];
                   templates[slug][n] == was.(assets := was.assets - {name}, revision := was.revision + 1)
    {
      if slug !in templates || n !in templates[slug] { return NotFound; }
      var v := templates[slug][n];
      if v.status != Draft { return Conflict; }
      if name !in v.assets { return NotFound; }
      SetVersion(slug, n, v.(assets := v.assets - {name}, revision := v.revision + 1));
      return NoError;
    }

    /** Succeeds only on a draft whose source, sample and asset revision are still those seen. */
    method Approve(slug: string, n: nat, seen: Version, schema: Schema) returns (error: Error)
      modifies this
      ensures next == old(next)
      ensures templates == TemplateModel.Approve(old(templates), slug, n, seen, schema)
      ensures error == (if CanApprove(old(templates), slug, n, seen) then NoError else Conflict)
      ensures error.NoError? <==>
                && slug in old(templates) && n in old(templates)[slug]
                && var was := old(templates)[slug][n];
                   && was.status == Draft && was.source == seen.source && was.sample == seen.sample
                   && was.revision == seen.revision
      ensures error.Conflict? ==> templates == old(templates)
      ensures error.NoError? ==>
                && Exists(templates, slug, n) && OthersStay(old(templates), templates, slug, n)
                && templates[slug][n] == old(templates)[slug][n].(status := Approved, schema := schema)
    {
      if slug !in templates || n !in templates[slug] { return Conflict; }
      var v := templates[slug][n];
      if v.status != Draft || v.source != seen.source || v.sample != seen.sample
          || v.revision != seen.revision { return Conflict; }
      SetVersion(slug, n, v.(status := Approved, sample := seen.sample, schema := schema));
      return NoError;
    }

    method Publish(slug: string, n: nat) returns (error: Error)
      modifies this
      ensures next == old(next)
      ensures templates == TemplateModel.Publish(old(templates), slug, n)
      ensures error == (if CanPublish(old(templates), slug, n) then NoError else Conflict)
      ensures error.NoError? <==> slug in old(templates) && n in old(templates)[slug]
                                  && old(templates)[slug][n].status == Approved
      ensures error.Conflict? ==> templates == old(templates)
      ensures error.NoError? ==>
                && Exists(templates, slug, n) && OthersStay(old(templates), templates, slug, n)
                && templates[slug][n] == old(templates)[slug][n].(status := Published)
    {
      if slug !in templates || n !in templates[slug] || templates[slug][n].status != Approved { return Conflict; }
      SetVersion(slug, n, templates[slug][n].(status := Published));
      return NoError;
    }
  }

  lemma NextIsUnique(m: Versions, n: nat)
    requires IsNext(m, n)
    ensures forall k | IsNext(m, k) :: k == n
  {}

  /** The first two steps of approving, on a draft that nobody changes meanwhile. */
  lemma ReadAndCheck(decode: P.Decoder, renders: P.Renderer, h: Id, key: P.Key, draft: Version, before: P.World)
    returns (run: seq<P.Action>, after: P.World)
    requires h !in before.handlers && P.At(before, key) && P.Row(before, key) == draft && draft.status == Draft
    requires P.Passes(decode, renders, draft, draft.assets)
    ensures run == [P.BeginApprove(h, key), P.CheckDraft(h)] && P.Leads(decode, renders, before, run, after)
    ensures after == before.(handlers := before.handlers[h := P.Checked(key, draft, draft.assets)])
  {
    var begun;
    run, begun := P.Take(decode, renders, before, [], before, P.BeginApprove(h, key));
    run, after := P.Take(decode, renders, before, run, begun, P.CheckDraft(h));
  }

  datatype Answer =
    | Done
    | Missing
    | NotInState
    | NotAnalyzed
    | SampleRefused
    | AssetsUnavailable
    | NotRendered
    | StoreFailed
    | RecordFailed
    | Raced

  class Handlers {
    const repo: Repository
    var artifacts: map<P.Slot, string>
    var recorded: set<P.Slot>

    constructor (repo: Repository)
      ensures this.repo == repo && artifacts == map[] && recorded == {}
    {
      this.repo := repo;
      artifacts, recorded := map[], {};
    }

    /**
     The world of the protocol as it looks from here: these versions, artifacts and records, and
     whatever else there is.
     */
    ghost predicate Matches(w: P.World)
      reads this, repo
    {
      w.templates == repo.templates && w.next == repo.next && w.stored == artifacts && w.recorded == recorded
    }

    /**
     Approves a draft if its source is analysed without complaint, its sample satisfies
     the contract found, and it renders with its assets. With nothing else going on the
     last guard always passes. What the handler does is a run of the protocol, which
     reads, checks and approves in separate steps.
     */
    method ApproveTemplateVersion(slug: string, n: nat, decode: P.Decoder, renders: P.Renderer, assetsReadable: bool,
                                  ghost h: Id, ghost before: P.World)
      returns (answer: Answer, ghost run: seq<P.Action>, ghost after: P.World)
      requires Matches(before) && h !in before.handlers
      modifies repo
      ensures answer.Done? ==>
                && assetsReadable
                && run == [P.BeginApprove(h, P.Key(slug, n)), P.CheckDraft(h), P.FinishApprove(h)]
                && IsDraft(old(repo.templates), slug, n) && Exists(repo.templates, slug, n)
                && var draft, v := old(repo.templates)[slug][n], repo.templates[slug][n];
                   && P.Passes(decode, renders, draft, draft.assets)
                   && v == draft.(status := Approved, schema := P.SchemaOf(decode, draft))
      ensures !answer.Done? ==> repo.templates == old(repo.templates)
      ensures answer.Missing? <==> !Exists(old(repo.templates), slug, n)
      ensures answer.NotInState? <==> Exists(old(repo.templates), slug, n) && !IsDraft(old(repo.templates), slug, n)
      ensures IsDraft(old(repo.templates), slug, n) && assetsReadable ==>
                var draft := old(repo.templates)[slug][n];
                P.Passes(decode, renders, draft, draft.assets) ==>
                  (V.Visits(P.SchemaOf(decode, draft), Object(draft.sample), 0) ==> answer.Done?)
      ensures P.Leads(decode, renders, before, run, after) && Matches(after) && after.handlers == before.handlers
    {
      run, after := [], before;
      if slug !in repo.templates || n !in repo.templates[slug] { return Missing, run, after; }
      var draft := repo.templates[slug][n];
      if draft.status != Draft { return NotInState, run, after; }
      var schema;
      answer, schema := CheckVersion(draft, decode, renders, assetsReadable);
      if !answer.Done? { return answer, run, after; }
      answer, run, after := ApproveChecked(slug, n, draft, schema, decode, renders, h, before);
    }

    /** What is checked of a draft before it is approved: analysis, its own sample, its assets, and that it renders. */
    method CheckVersion(draft: Version, decode: P.Decoder, renders: P.Renderer, assetsReadable: bool)
      returns (answer: Answer, schema: Schema)
      ensures answer.Done? ==>
                assetsReadable && P.Passes(decode, renders, draft, draft.assets) && schema == P.SchemaOf(decode, draft)
      ensures !answer.Missing? && !answer.NotInState?
      ensures assetsReadable && P.Passes(decode, renders, draft, draft.assets) ==>
                (V.Visits(P.SchemaOf(decode, draft), Object(draft.sample), 0) ==> answer.Done?)
    {
      schema := Typed({});
      var analysis := A.RunAnalysis(draft.source, decode, draft.sample);
      if analysis.Refused? || analysis.diagnostics != [] { return NotAnalyzed, schema; }
      schema := analysis.schema;
      var outcome, errors := V.Validate(schema, Object(draft.sample));
      if !outcome.Done? || errors != [] { return SampleRefused, schema; }
      if !assetsReadable { return AssetsUnavailable, schema; }
      answer := if renders(draft.source, draft.sample, draft.assets) then Done else NotRendered;
    }

    method ApproveChecked(slug: string, n: nat, draft: Version, schema: Schema, decode: P.Decoder, renders: P.Renderer,
                          ghost h: Id, ghost before: P.World)
      returns (answer: Answer, ghost run: seq<P.Action>, ghost after: P.World)
      requires Matches(before) && h !in before.handlers
      requires IsDraft(repo.templates, slug, n) && repo.templates[slug][n] == draft
      requires P.Passes(decode, renders, draft, draft.assets) && schema == P.SchemaOf(decode, draft)
      modifies repo
      ensures answer.Done? && run == [P.BeginApprove(h, P.Key(slug, n)), P.CheckDraft(h), P.FinishApprove(h)]
      ensures Exists(repo.templates, slug, n)
      ensures repo.templates[slug][n] == draft.(status := Approved, schema := schema)
      ensures P.Leads(decode, renders, before, run, after) && Matches(after) && after.handlers == before.handlers
    {
      run, after := ReadAndCheck(decode, renders, h, P.Key(slug, n), draft, before);
      var error := repo.Approve(slug, n, draft, schema);
      run, after := P.Take(decode, renders, before, run, after, P.FinishApprove(h));
      answer := if error.NoError? then Done else Raced;
    }

    /**
     Publishes an approved version, after its source is stored and recorded as its
     artifact: store, record and publish are separate steps in this order, and any of
     them may be the last.
     */
    method PublishTemplateVersion(slug: string, n: nat, decode: P.Decoder, renders: P.Renderer, profile: Option<Id>,
                                  assetsReadable: bool, put: bool, record: bool, ghost h: Id, ghost before: P.World)
      returns (answer: Answer, ghost run: seq<P.Action>, ghost after: P.World)
      requires Matches(before) && h !in before.handlers
      modifies this, repo
      ensures answer.Done? <==>
                CanPublish(old(repo.templates), slug, n) && assetsReadable && profile.Some? && put && record
      ensures answer.Done? ==>
                && run == [P.BeginPublish(h, P.Key(slug, n)), P.PutArtifact(h, profile.value), P.RecordArtifact(h),
                           P.FinishPublish(h)]
                && repo.templates == Publish(old(repo.templates), slug, n)
                && var slot := P.Slot(profile.value, P.Key(slug, n));
                   artifacts == old(artifacts)[slot := old(repo.templates)[slug][n].source]
                       && recorded == old(recorded) + {slot}
      ensures !answer.Done? ==> repo.templates == old(repo.templates) && recorded == old(recorded)
      ensures !answer.Done? && !answer.RecordFailed? ==> artifacts == old(artifacts)
      ensures P.Leads(decode, renders, before, run, after) && Matches(after) && after.handlers == before.handlers
    {
      run, after := [], before;
      if slug !in repo.templates || n !in repo.templates[slug] { return Missing, run, after; }
      var version := repo.templates[slug][n];
      if version.status != Approved { return NotInState, run, after; }
      if !assetsReadable { return AssetsUnavailable, run, after; }
      if profile.None? || !put { return StoreFailed, run, after; }
      run, after := StoreArtifact(slug, n, decode, renders, profile.value, h, before);
      if !record {
        run, after := P.Take(decode, renders, before, run, after, P.GiveUp(h));
        return RecordFailed, run, after;
      }
      answer, run, after := RecordAndPublish(slug, n, decode, renders, profile.value, h, before, run, after);
    }

    method StoreArtifact(slug: string, n: nat, decode: P.Decoder, renders: P.Renderer, profile: Id, ghost h: Id,
                         ghost before: P.World)
      returns (ghost run: seq<P.Action>, ghost after: P.World)
      requires Matches(before) && h !in before.handlers && CanPublish(repo.templates, slug, n)
      modifies this
      ensures run == [P.BeginPublish(h, P.Key(slug, n)), P.PutArtifact(h, profile)]
      ensures artifacts == old(artifacts)[P.Slot(profile, P.Key(slug, n)) := repo.templates[slug][n].source]
      ensures recorded == old(recorded)
      ensures P.Leads(decode, renders, before, run, after) && Matches(after) && after.handlers - {h} == before.handlers
      ensures h in after.handlers && after.handlers[h].ArtifactStored?
      ensures after.handlers[h].key == P.Key(slug, n) && after.handlers[h].profile == profile
    {
      run, after := P.Take(decode, renders, before, [], before, P.BeginPublish(h, P.Key(slug, n)));
      artifacts := artifacts[P.Slot(profile, P.Key(slug, n)) := repo.templates[slug][n].source];
      run, after := P.Take(decode, renders, before, run, after, P.PutArtifact(h, profile));
    }

    method RecordAndPublish(slug: string, n: nat, decode: P.Decoder, renders: P.Renderer, profile: Id,
                            ghost h: Id, ghost before: P.World, ghost soFar: seq<P.Action>, ghost middle: P.World)
      returns (answer: Answer, ghost run: seq<P.Action>, ghost after: P.World)
      requires P.Leads(decode, renders, before, soFar, middle) && Matches(middle) && CanPublish(repo.templates, slug, n)
      requires h in middle.handlers && middle.handlers[h].ArtifactStored?
      requires middle.handlers[h].key == P.Key(slug, n) && middle.handlers[h].profile == profile
      modifies this, repo
      ensures answer.Done? && run == soFar + [P.RecordArtifact(h), P.FinishPublish(h)]
      ensures repo.templates == Publish(old(repo.templates), slug, n) && artifacts == old(artifacts)
      ensures recorded == old(recorded) + {P.Slot(profile, P.Key(slug, n))}
      ensures P.Leads(decode, renders, before, run, after) && Matches(after) && after.handlers == middle.handlers - {h}
    {
      recorded := recorded + {P.Slot(profile, P.Key(slug, n))};
      run, after := P.Take(decode, renders, before, soFar, middle, P.RecordArtifact(h));
      var error := repo.Publish(slug, n);
      run, after := P.Take(decode, renders, before, run, after, P.FinishPublish(h));
      answer := if error.NoError? then Done else Raced;
    }
  }
}
