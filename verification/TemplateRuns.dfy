/** What holds over whole histories of templates. */
module TemplateRuns {
  import opened Common
  import opened Json
  import opened ContractSchema
  import opened TemplateModel
  import opened TemplateProtocol
  import opened TemplateSafety
  import A = ContractAnalysis

  lemma InitialHolds(decode: Decoder, renders: Renderer, w: World)
    requires Initial(w)
    ensures Inv(decode, renders, w)
  {
    forall key | At(w, key) ensures RowAgrees(decode, renders, w, key) {
      var profile :| Slot(profile, key) in w.stored;
      assert Slot(profile, key) in w.recorded;
    }
  }

  lemma {:induction false} ReachableHolds(decode: Decoder, renders: Renderer, worlds: seq<World>,
                                          actions: seq<Action>, n: nat)
    requires Trace(decode, renders, worlds, actions) && n < |worlds|
    ensures Inv(decode, renders, worlds[n]) && worlds[n].seeded == worlds[0].seeded
  {
    if n == 0 {
      InitialHolds(decode, renders, worlds[0]);
    } else {
      ReachableHolds(decode, renders, worlds, actions, n - 1);
      assert StepAt(decode, renders, worlds, actions, n - 1);
      StepKeepsInv(decode, renders, worlds[n - 1], actions[n - 1]);
      SeedIsKept(decode, worlds[n - 1], actions[n - 1]);
    }
  }

  lemma SeedIsKept(decode: Decoder, w: World, a: Action)
    ensures Apply(decode, w, a).seeded == w.seeded
  {}

  // ---- Numbers and immutability ----

  /** The numbers of a template are 1 to n, and at most one version, namely n, is not published yet. */
  lemma NumbersAreSequential(decode: Decoder, renders: Renderer, worlds: seq<World>, actions: seq<Action>, n: nat,
                             slug: string, k: nat)
    requires Trace(decode, renders, worlds, actions) && n < |worlds| && slug in worlds[n].templates
    ensures var m := worlds[n].templates[slug];
            && (k in m <==> 1 <= k <= |m|)
            && (k in m && m[k].status != Published ==> k == |m|)
  {
    ReachableHolds(decode, renders, worlds, actions, n);
    assert InSequence(worlds[n].templates[slug]);
  }

  /** An approved version may still be published; besides that nothing of an approved or published version changes. */
  ghost predicate KeepsVersion(w: World, w': World, key: Key) {
    At(w, key) && Row(w, key).status != Draft ==>
      && At(w', key) && Row(w', key).status != Draft
      && Row(w', key).(status := Approved) == Row(w, key).(status := Approved)
      && (Row(w, key).status == Published ==> Row(w', key).status == Published)
  }

  lemma StepKeepsVersion(decode: Decoder, renders: Renderer, w: World, a: Action, key: Key)
    requires Inv(decode, renders, w) && Enabled(decode, renders, w, a)
    ensures KeepsVersion(w, Apply(decode, w, a), key)
  {
    if IsEdit(a) {
      RowsWithinLimits(decode, renders, w);
      EditEditsDrafts(decode, renders, w, a, key);
    } else if IsReading(a) {
      ReadingLeavesRows(decode, w, a);
    } else {
      FinishingAdvances(decode, renders, w, a, key);
    }
  }

  lemma {:induction false} ChainKeepsVersion(worlds: seq<World>, key: Key)
    requires worlds != [] && forall k | 0 < k < |worlds| :: KeepsVersion(worlds[k - 1], worlds[k], key)
    ensures KeepsVersion(worlds[0], worlds[|worlds| - 1], key)
  {
    if |worlds| > 1 { ChainKeepsVersion(worlds[..|worlds| - 1], key); }
  }

  lemma VersionsAreKept(decode: Decoder, renders: Renderer, worlds: seq<World>, actions: seq<Action>, n: nat,
                        later: nat, key: Key)
    requires Trace(decode, renders, worlds, actions) && n <= later < |worlds|
    ensures KeepsVersion(worlds[n], worlds[later], key)
  {
    forall k | n < k <= later ensures KeepsVersion(worlds[k - 1], worlds[k], key) {
      ReachableHolds(decode, renders, worlds, actions, k - 1);
      assert StepAt(decode, renders, worlds, actions, k - 1);
      StepKeepsVersion(decode, renders, worlds[k - 1], actions[k - 1], key);
    }
    var part := worlds[n..later + 1];
    forall k | 0 < k < |part| ensures KeepsVersion(part[k - 1], part[k], key) {
      assert KeepsVersion(worlds[n + k - 1], worlds[n + k], key);
    }
    ChainKeepsVersion(part, key);
  }

  /** Every version below the newest is published, and stays the same for ever, whatever happens to the template. */
  lemma OlderVersionsNeverChange(decode: Decoder, renders: Renderer, worlds: seq<World>, actions: seq<Action>,
                                 n: nat, later: nat, slug: string, k: nat)
    requires Trace(decode, renders, worlds, actions) && n <= later < |worlds|
    requires slug in worlds[n].templates && 1 <= k < |worlds[n].templates[slug]|
    ensures var key := Key(slug, k);
            At(worlds[n], key) && At(worlds[later], key) && Row(worlds[later], key) == Row(worlds[n], key)
            && Row(worlds[n], key).status == Published
  {
    NumbersAreSequential(decode, renders, worlds, actions, n, slug, k);
    VersionsAreKept(decode, renders, worlds, actions, n, later, Key(slug, k));
    var v, v' := Row(worlds[n], Key(slug, k)), Row(worlds[later], Key(slug, k));
    assert v == v.(status := Approved).(status := Published) && v' == v'.(status := Approved).(status := Published);
  }

  // ---- Approved means checked ----

  /**
   The source, the sample and the contract of every version approved since the beginning
   are exactly what was analysed and validated; and unless the draft was discarded and
   created again while it was being checked, so are its assets, and the renderer accepted
   precisely this source with this sample and these assets.
   */
  lemma ApprovedMeansChecked(decode: Decoder, renders: Renderer, worlds: seq<World>, actions: seq<Action>, n: nat,
                             key: Key)
    requires Trace(decode, renders, worlds, actions) && n < |worlds|
    requires At(worlds[n], key) && Row(worlds[n], key).status != Draft && key !in worlds[0].seeded
    ensures var v := Row(worlds[n], key);
            && A.Analyze(v.source, decode, v.sample).Contract?
            && A.Analyze(v.source, decode, v.sample).diagnostics == []
            && v.schema == SchemaOf(decode, v) && Conforms(v.schema, Object(v.sample))
            && key in worlds[n].checks
            && (worlds[n].checks[key].seen.incarnation == v.incarnation ==>
                  worlds[n].checks[key].manifest == v.assets && renders(v.source, v.sample, v.assets))
  {
    ReachableHolds(decode, renders, worlds, actions, n);
    assert RowAgrees(decode, renders, worlds[n], key);
  }

  /**
   That exception is real: a draft created from one version, checked, discarded and
   created again from another version has the same source, sample and revision, so it is
   approved with assets that nobody rendered.
   */
  lemma RecreatedDraftEscapes(decode: Decoder, renders: Renderer, w: World, h: Id, key: Key, c: Content, base: nat,
                              other: nat)
    returns (run: seq<Action>, end: World)
    requires CanCreateVersion(w.templates, key.slug, key.number, Some(base)) && h !in w.handlers
    requires base in w.templates[key.slug] && other in w.templates[key.slug]
    requires w.templates[key.slug][base].assets != map[] && w.templates[key.slug][other].assets != map[]
    requires Passes(decode, renders, NewDraft(c, w.templates[key.slug][base].assets, w.next),
                    w.templates[key.slug][base].assets)
    ensures Leads(decode, renders, w, run, end)
    ensures At(end, key) && Row(end, key).status == Approved
    ensures Row(end, key).assets == w.templates[key.slug][other].assets
    ensures key in end.checks && end.checks[key].manifest == w.templates[key.slug][base].assets
  {
    var m := w.templates[key.slug];
    var first, second := NewDraft(c, m[base].assets, w.next), NewDraft(c, m[other].assets, w.next + 1);
    var created, checked := CreateAndCheck(decode, renders, w, h, key, c, base, first);
    var replaced := DiscardAndCreate(decode, renders, w, checked, key, c, other, first, second);
    LeadsOn(decode, renders, w, created, checked, [DoDelete(key), DoCreateVersion(key, c, Some(other))], replaced);
    end := ApproveReplacement(decode, renders, replaced, h, key, first, second);
    run := created + [DoDelete(key), DoCreateVersion(key, c, Some(other))] + [FinishApprove(h)];
    LeadsOn(decode, renders, w, created + [DoDelete(key), DoCreateVersion(key, c, Some(other))], replaced,
            [FinishApprove(h)], end);
  }

  lemma CreateAndCheck(decode: Decoder, renders: Renderer, w: World, h: Id, key: Key, c: Content, base: nat,
                       first: Version)
    returns (run: seq<Action>, checked: World)
    requires CanCreateVersion(w.templates, key.slug, key.number, Some(base)) && base in w.templates[key.slug]
    requires h !in w.handlers
    requires first == NewDraft(c, w.templates[key.slug][base].assets, w.next)
    requires Passes(decode, renders, first, first.assets)
    ensures Leads(decode, renders, w, run, checked)
    ensures checked.templates == Put(w.templates, key.slug, key.number, first) && checked.next == w.next + 1
    ensures h in checked.handlers && checked.handlers[h] == Checked(key, first, first.assets)
  {
    var create, begin, check := DoCreateVersion(key, c, Some(base)), BeginApprove(h, key), CheckDraft(h);
    var w1 := Apply(decode, w, create);
    OneStep(decode, renders, w, create);
    var w2 := Begun(decode, renders, w1, h, key, first);
    LeadsOn(decode, renders, w, [create], w1, [begin], w2);
    checked := DraftChecked(decode, renders, w2, h, key, first);
    run := [create] + [begin] + [check];
    LeadsOn(decode, renders, w, [create] + [begin], w2, [check], checked);
  }

  lemma Begun(decode: Decoder, renders: Renderer, w: World, h: Id, key: Key, draft: Version) returns (after: World)
    requires At(w, key) && Row(w, key) == draft && draft.status == Draft && h !in w.handlers
    ensures Leads(decode, renders, w, [BeginApprove(h, key)], after)
    ensures after == w.(handlers := w.handlers[h := Approving(key, draft)])
  {
    OneStep(decode, renders, w, BeginApprove(h, key));
    after := Apply(decode, w, BeginApprove(h, key));
  }

  lemma DraftChecked(decode: Decoder, renders: Renderer, w: World, h: Id, key: Key, draft: Version)
    returns (after: World)
    requires At(w, key) && Row(w, key) == draft && h in w.handlers && w.handlers[h] == Approving(key, draft)
    requires Passes(decode, renders, draft, draft.assets)
    ensures Leads(decode, renders, w, [CheckDraft(h)], after)
    ensures after == w.(handlers := w.handlers[h := Checked(key, draft, draft.assets)])
  {
    OneStep(decode, renders, w, CheckDraft(h));
    after := Apply(decode, w, CheckDraft(h));
  }

  lemma DiscardAndCreate(decode: Decoder, renders: Renderer, w: World, checked: World, key: Key, c: Content,
                         other: nat, first: Version, second: Version)
    returns (replaced: World)
    requires CanCreateVersion(w.templates, key.slug, key.number, Some(other)) && other in w.templates[key.slug]
    requires first.status == Draft && second == NewDraft(c, w.templates[key.slug][other].assets, w.next + 1)
    requires checked.templates == Put(w.templates, key.slug, key.number, first) && checked.next == w.next + 1
    ensures Leads(decode, renders, checked, [DoDelete(key), DoCreateVersion(key, c, Some(other))], replaced)
    ensures At(replaced, key) && Row(replaced, key) == second && replaced.handlers == checked.handlers
  {
    var m := w.templates[key.slug];
    assert m[key.number := first] - {key.number} == m;
    var deleted := Apply(decode, checked, DoDelete(key));
    assert deleted.templates == w.templates;
    OneStep(decode, renders, checked, DoDelete(key));
    var create := DoCreateVersion(key, c, Some(other));
    replaced := Apply(decode, deleted, create);
    OneStep(decode, renders, deleted, create);
    LeadsOn(decode, renders, checked, [DoDelete(key)], deleted, [create], replaced);
    assert [DoDelete(key)] + [create] == [DoDelete(key), create];
  }

  lemma ApproveReplacement(decode: Decoder, renders: Renderer, w: World, h: Id, key: Key, first: Version,
                           second: Version)
    returns (end: World)
    requires h in w.handlers && w.handlers[h] == Checked(key, first, first.assets)
    requires At(w, key) && Row(w, key) == second && second.status == Draft
    requires second.source == first.source && second.sample == first.sample && second.revision == first.revision
    requires A.Analyze(first.source, decode, first.sample).Contract?
    ensures Leads(decode, renders, w, [FinishApprove(h)], end)
    ensures At(end, key) && Row(end, key).status == Approved && Row(end, key).assets == second.assets
    ensures key in end.checks && end.checks[key].manifest == first.assets
  {
    OneStep(decode, renders, w, FinishApprove(h));
    end := Apply(decode, w, FinishApprove(h));
  }

  // ---- Published means stored ----

  /** A published version has a recorded artifact, stored before, that is its source; and so it stays. */
  lemma PublishedIsStored(decode: Decoder, renders: Renderer, worlds: seq<World>, actions: seq<Action>, n: nat,
                          later: nat, key: Key)
    requires Trace(decode, renders, worlds, actions) && n <= later < |worlds|
    requires At(worlds[n], key) && Row(worlds[n], key).status == Published
    ensures exists profile :: Slot(profile, key) in worlds[later].recorded && Slot(profile, key) in worlds[later].stored
              && worlds[later].stored[Slot(profile, key)] == Row(worlds[n], key).source
  {
    VersionsAreKept(decode, renders, worlds, actions, n, later, key);
    ReachableHolds(decode, renders, worlds, actions, later);
    assert RowAgrees(decode, renders, worlds[later], key);
    var profile :| Slot(profile, key) in worlds[later].recorded;
    assert IsSettled(worlds[later], key, worlds[later].stored[Slot(profile, key)]);
  }

  /** Whoever records an artifact repeats what is recorded: every copy of a version holds the same source. */
  lemma RecordingRepeats(decode: Decoder, renders: Renderer, worlds: seq<World>, actions: seq<Action>, n: nat,
                         h: Id, slot: Slot)
    requires Trace(decode, renders, worlds, actions) && n < |worlds| && h in worlds[n].handlers
    requires worlds[n].handlers[h].ArtifactStored? && slot in worlds[n].recorded
    requires slot.key == worlds[n].handlers[h].key
    ensures slot in worlds[n].stored && worlds[n].stored[slot] == worlds[n].handlers[h].seen.source
    ensures var own := Slot(worlds[n].handlers[h].profile, slot.key);
            own in worlds[n].stored && worlds[n].stored[own] == worlds[n].stored[slot]
  {
    ReachableHolds(decode, renders, worlds, actions, n);
    var pc := worlds[n].handlers[h];
    assert HandlerAgrees(decode, renders, worlds[n], pc);
    assert IsSettled(worlds[n], slot.key, worlds[n].stored[slot]);
    assert IsSettled(worlds[n], slot.key, worlds[n].stored[Slot(pc.profile, slot.key)]);
  }

  /** Whatever is stored as a template's artifact, at any time, is the source of an approved or published version. */
  lemma StoredIsApproved(decode: Decoder, renders: Renderer, worlds: seq<World>, actions: seq<Action>, n: nat,
                         slot: Slot)
    requires Trace(decode, renders, worlds, actions) && n < |worlds| && slot in worlds[n].stored
    ensures At(worlds[n], slot.key) && Row(worlds[n], slot.key).status != Draft
    ensures Row(worlds[n], slot.key).source == worlds[n].stored[slot]
  {
    ReachableHolds(decode, renders, worlds, actions, n);
    assert IsSettled(worlds[n], slot.key, worlds[n].stored[slot]);
  }
}
