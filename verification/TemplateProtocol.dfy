/**
 Editing, approving and publishing templates, one atomic step at a time. Approving and
 publishing read, work and write in separate steps; edits, asset uploads, discarded
 drafts and other handlers may come between any two of them. `decode` reads string
 literals, and `renders` says what the renderer accepts.
 */
module TemplateProtocol {
  import opened Common
  import opened Json
  import opened ContractSchema
  import opened TemplateModel
  import A = ContractAnalysis
  import L = ContractLexer

  type Decoder = string -> L.Decoded
  type Renderer = (string, map<string, Value>, map<string, Asset>) -> bool

  datatype Key = Key(slug: string, number: nat)
  datatype Slot = Slot(profile: Id, key: Key)

  /** Where a handler stands. `seen` is the version as it read it. */
  datatype Handler =
    | Approving(key: Key, seen: Version)
    | Checked(key: Key, seen: Version, manifest: map<string, Asset>)
    | Publishing(key: Key, seen: Version)
    | ArtifactStored(key: Key, seen: Version, profile: Id)
    | ArtifactRecorded(key: Key, seen: Version, profile: Id)

  /** What was validated and rendered when a version was approved. */
  datatype Check = Check(seen: Version, manifest: map<string, Asset>)

  /** `checks` is history; `seeded` are the versions published before it begins. */
  datatype World = World(
    templates: Templates,
    next: nat,
    handlers: map<Id, Handler>,
    stored: map<Slot, string>,
    recorded: set<Slot>,
    checks: map<Key, Check>,
    seeded: set<Key>)

  datatype Action =
    | DoCreate(slug: string, content: Content)
    | DoCreateVersion(key: Key, content: Content, base: Option<nat>)
    | DoUpdate(key: Key, content: Content)
    | DoDelete(key: Key)
    | DoStoreAsset(key: Key, name: string, asset: Asset)
    | DoDeleteAsset(key: Key, name: string)
    | BeginApprove(handler: Id, key: Key)
    | CheckDraft(handler: Id)
    | FinishApprove(handler: Id)
    | BeginPublish(handler: Id, key: Key)
    | PutArtifact(handler: Id, profile: Id)
    | RecordArtifact(handler: Id)
    | FinishPublish(handler: Id)
    | GiveUp(handler: Id)

  /** The contract found in a source with its sample, where there is one. */
  function SchemaOf(decode: Decoder, v: Version): Schema
    requires A.Analyze(v.source, decode, v.sample).Contract?
  {
    A.Analyze(v.source, decode, v.sample).schema
  }

  /** Analysed without complaint, satisfied by its own sample, and rendered with these assets. */
  ghost predicate Passes(decode: Decoder, renders: Renderer, v: Version, manifest: map<string, Asset>) {
    && A.Analyze(v.source, decode, v.sample).Contract?
    && A.Analyze(v.source, decode, v.sample).diagnostics == []
    && Conforms(SchemaOf(decode, v), Object(v.sample))
    && renders(v.source, v.sample, manifest)
  }

  predicate At(w: World, key: Key) {
    Exists(w.templates, key.slug, key.number)
  }

  function Row(w: World, key: Key): Version
    requires At(w, key)
  {
    w.templates[key.slug][key.number]
  }

  ghost predicate Enabled(decode: Decoder, renders: Renderer, w: World, a: Action) {
    match a
    case DoCreateVersion(key, _, base) => CanCreateVersion(w.templates, key.slug, key.number, base)
    case BeginApprove(h, key) => h !in w.handlers && At(w, key) && Row(w, key).status == Draft
    case CheckDraft(h) =>
      && h in w.handlers && w.handlers[h].Approving? && At(w, w.handlers[h].key)
      && Passes(decode, renders, w.handlers[h].seen, Row(w, w.handlers[h].key).assets)
    case FinishApprove(h) => h in w.handlers && w.handlers[h].Checked?
    case BeginPublish(h, key) => h !in w.handlers && At(w, key) && Row(w, key).status == Approved
    case PutArtifact(h, _) => h in w.handlers && w.handlers[h].Publishing?
    case RecordArtifact(h) => h in w.handlers && w.handlers[h].ArtifactStored?
    case FinishPublish(h) => h in w.handlers && w.handlers[h].ArtifactRecorded?
    case _ => true
  }

  function Edited(w: World, t: Templates): World {
    w.(templates := t, next := w.next + 1)
  }

  function ApproveNow(decode: Decoder, w: World, h: Id): World
    requires h in w.handlers && w.handlers[h].Checked?
  {
    var pc := w.handlers[h];
    var gone := w.(handlers := w.handlers - {h});
    if CanApprove(w.templates, pc.key.slug, pc.key.number, pc.seen)
        && A.Analyze(pc.seen.source, decode, pc.seen.sample).Contract? then
      gone.(templates := Approve(w.templates, pc.key.slug, pc.key.number, pc.seen, SchemaOf(decode, pc.seen)),
            checks := w.checks[pc.key := Check(pc.seen, pc.manifest)])
    else gone
  }

  ghost function Apply(decode: Decoder, w: World, a: Action): World {
    match a
    case DoCreate(slug, c) => Edited(w, CreateTemplate(w.templates, slug, c, w.next))
    case DoCreateVersion(key, c, base) => Edited(w, CreateVersion(w.templates, key.slug, key.number, c, base, w.next))
    case DoUpdate(key, c) => w.(templates := UpdateDraft(w.templates, key.slug, key.number, c))
    case DoDelete(key) => w.(templates := DeleteDraft(w.templates, key.slug, key.number))
    case DoStoreAsset(key, name, asset) => w.(templates := StoreAsset(w.templates, key.slug, key.number, name, asset))
    case DoDeleteAsset(key, name) => w.(templates := DeleteAsset(w.templates, key.slug, key.number, name))
    case BeginApprove(h, key) => if At(w, key) then w.(handlers := w.handlers[h := Approving(key, Row(w, key))]) else w
    case CheckDraft(h) =>
      if h in w.handlers && At(w, w.handlers[h].key) then
        w.(handlers := w.handlers[h := Checked(w.handlers[h].key, w.handlers[h].seen,
                                               Row(w, w.handlers[h].key).assets)])
      else w
    case FinishApprove(h) => if h in w.handlers && w.handlers[h].Checked? then ApproveNow(decode, w, h) else w
    case BeginPublish(h, key) => if At(w, key) then w.(handlers := w.handlers[h := Publishing(key, Row(w, key))]) else w
    case PutArtifact(h, profile) =>
      if h in w.handlers then
        var pc := w.handlers[h];
        w.(handlers := w.handlers[h := ArtifactStored(pc.key, pc.seen, profile)],
           stored := w.stored[Slot(profile, pc.key) := pc.seen.source])
      else w
    case RecordArtifact(h) =>
      if h in w.handlers && w.handlers[h].ArtifactStored? then
        var pc := w.handlers[h];
        w.(handlers := w.handlers[h := ArtifactRecorded(pc.key, pc.seen, pc.profile)],
           recorded := w.recorded + {Slot(pc.profile, pc.key)})
      else w
    case FinishPublish(h) =>
      if h in w.handlers then
        w.(handlers := w.handlers - {h},
           templates := Publish(w.templates, w.handlers[h].key.slug, w.handlers[h].key.number))
      else w
    case GiveUp(h) => w.(handlers := w.handlers - {h})
  }

  // ---- Runs ----

  /** `after` is where the actions lead from `before`, each of them enabled when it is taken. */
  ghost predicate Leads(decode: Decoder, renders: Renderer, before: World, actions: seq<Action>, after: World)
    decreases |actions|, 1
  {
    if actions == [] then after == before else LeadsFrom(decode, renders, before, actions, after)
  }

  ghost predicate LeadsFrom(decode: Decoder, renders: Renderer, before: World, actions: seq<Action>, after: World)
    requires actions != []
    decreases |actions|, 0
  {
    Enabled(decode, renders, before, actions[0])
        && Leads(decode, renders, Apply(decode, before, actions[0]), actions[1..], after)
  }

  lemma {:induction false} LeadsOn(decode: Decoder, renders: Renderer, before: World, actions: seq<Action>,
                                   middle: World, more: seq<Action>, after: World)
    requires Leads(decode, renders, before, actions, middle) && Leads(decode, renders, middle, more, after)
    ensures Leads(decode, renders, before, actions + more, after)
    decreases |actions|
  {
    if actions == [] {
      assert actions + more == more;
    } else {
      assert LeadsFrom(decode, renders, before, actions, middle);
      LeadsOn(decode, renders, Apply(decode, before, actions[0]), actions[1..], middle, more, after);
      assert (actions + more)[1..] == actions[1..] + more;
      assert LeadsFrom(decode, renders, before, actions + more, after);
    }
  }

  lemma OneStep(decode: Decoder, renders: Renderer, before: World, a: Action)
    requires Enabled(decode, renders, before, a)
    ensures Leads(decode, renders, before, [a], Apply(decode, before, a))
  {
    assert [a][1..] == [];
    assert LeadsFrom(decode, renders, before, [a], Apply(decode, before, a));
  }

  /** One more step at the end of a run. */
  lemma Take(decode: Decoder, renders: Renderer, before: World, run: seq<Action>, middle: World, next: Action)
    returns (run': seq<Action>, after: World)
    requires Leads(decode, renders, before, run, middle) && Enabled(decode, renders, middle, next)
    ensures Leads(decode, renders, before, run', after) && after == Apply(decode, middle, next) && run' == run + [next]
  {
    OneStep(decode, renders, middle, next);
    run', after := run + [next], Apply(decode, middle, next);
    LeadsOn(decode, renders, before, run, middle, [next], after);
  }

  // ---- Invariants ----

  /** The numbers are 1 to n, and only n may be unpublished. */
  ghost predicate InSequence(m: Versions) {
    && (forall k | k in m :: 1 <= k <= |m|)
    && (forall k | 1 <= k <= |m| :: k in m)
    && (forall k | k in m && m[k].status != Published :: k == |m|)
  }

  ghost predicate WithinLimits(v: Version) {
    |v.assets| <= MAX_ASSETS && Total(v.assets) <= MAX_BYTES
  }

  /** What an approved or published version rests on. */
  ghost predicate IsChecked(decode: Decoder, renders: Renderer, v: Version, c: Check) {
    && Passes(decode, renders, c.seen, c.manifest)
    && v.source == c.seen.source && v.sample == c.seen.sample && v.schema == SchemaOf(decode, c.seen)
    && (v.incarnation == c.seen.incarnation ==> v.assets == c.manifest)
  }

  /** A version as a row: drafts have numbers already used up, the rest has been checked. */
  ghost predicate RowAgrees(decode: Decoder, renders: Renderer, w: World, key: Key)
    requires At(w, key)
  {
    var v := Row(w, key);
    && v.incarnation < w.next && WithinLimits(v)
    && (v.status != Draft ==> key in w.seeded || (key in w.checks && IsChecked(decode, renders, v, w.checks[key])))
    && (v.status == Published ==> exists profile :: Slot(profile, key) in w.recorded)
  }

  ghost predicate RowsAgree(decode: Decoder, renders: Renderer, w: World) {
    && (forall slug | slug in w.templates :: InSequence(w.templates[slug]))
    && (forall key {:trigger RowAgrees(decode, renders, w, key)} | At(w, key) :: RowAgrees(decode, renders, w, key))
  }

  /** The draft a handler has read, if it is still that one, has moved on only together with its revision. */
  ghost predicate StillSeen(w: World, key: Key, seen: Version, manifest: map<string, Asset>) {
    && seen.incarnation < w.next
    && (At(w, key) && Row(w, key).incarnation == seen.incarnation ==>
          Row(w, key).revision >= seen.revision
              && (Row(w, key).revision == seen.revision ==> Row(w, key).assets == manifest))
  }

  ghost predicate IsSettled(w: World, key: Key, source: string) {
    At(w, key) && Row(w, key).status != Draft && Row(w, key).source == source
  }

  ghost predicate HandlerAgrees(decode: Decoder, renders: Renderer, w: World, pc: Handler) {
    match pc
    case Approving(key, seen) => StillSeen(w, key, seen, seen.assets)
    case Checked(key, seen, manifest) => StillSeen(w, key, seen, manifest) && Passes(decode, renders, seen, manifest)
    case Publishing(key, seen) => IsSettled(w, key, seen.source)
    case ArtifactStored(key, seen, profile) => IsSettled(w, key, seen.source) && Slot(profile, key) in w.stored
    case ArtifactRecorded(key, seen, profile) => IsSettled(w, key, seen.source) && Slot(profile, key) in w.recorded
  }

  ghost predicate HandlersAgree(decode: Decoder, renders: Renderer, w: World) {
    forall h | h in w.handlers :: HandlerAgrees(decode, renders, w, w.handlers[h])
  }

  /** Every stored artifact is the source of an approved or published version. */
  ghost predicate ArtifactsAgree(w: World) {
    && w.recorded <= w.stored.Keys
    && (forall slot | slot in w.stored :: IsSettled(w, slot.key, w.stored[slot]))
  }

  ghost predicate Inv(decode: Decoder, renders: Renderer, w: World) {
    RowsAgree(decode, renders, w) && HandlersAgree(decode, renders, w) && ArtifactsAgree(w)
  }

  /** At first there are only versions published before, with their artifacts, and nobody is at work. */
  ghost predicate Initial(w: World) {
    && w.handlers == map[] && w.checks == map[] && w.recorded == w.stored.Keys
    && (forall slug | slug in w.templates :: InSequence(w.templates[slug]))
    && (forall key | At(w, key) ::
          && Row(w, key).status == Published && Row(w, key).incarnation < w.next && WithinLimits(Row(w, key))
          && key in w.seeded
          && exists profile :: Slot(profile, key) in w.stored)
    && (forall slot | slot in w.stored :: At(w, slot.key) && Row(w, slot.key).source == w.stored[slot])
  }

  ghost predicate StepAt(decode: Decoder, renders: Renderer, worlds: seq<World>, actions: seq<Action>, i: nat)
    requires i < |actions| && |worlds| == |actions| + 1
  {
    Enabled(decode, renders, worlds[i], actions[i]) && worlds[i + 1] == Apply(decode, worlds[i], actions[i])
  }

  ghost predicate Trace(decode: Decoder, renders: Renderer, worlds: seq<World>, actions: seq<Action>) {
    && |worlds| == |actions| + 1
    && Initial(worlds[0])
    && (forall i | 0 <= i < |actions| :: StepAt(decode, renders, worlds, actions, i))
  }
}
