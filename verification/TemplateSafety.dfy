/** What every step of editing, approving and publishing keeps. */
module TemplateSafety {
  import opened Common
  import opened TemplateModel
  import opened TemplateProtocol

  // ---- Numbers ----

  lemma PutKeepsSequence(m: Versions, n: nat, v: Version)
    requires InSequence(m) && n in m && (v.status != Published ==> m[n].status != Published)
    ensures InSequence(m[n := v])
  {
    var m': Versions := m[n := v];
    assert m'.Keys == m.Keys;
    assert |m'| == |m'.Keys| == |m|;
    forall k | k in m' && m'[k].status != Published ensures k == |m'| {
      assert k in m && m[k].status != Published;
    }
  }

  /** In a sequence the next number is one more than there are versions. */
  lemma NextFollows(m: Versions, n: nat)
    requires InSequence(m) && IsNext(m, n)
    ensures n == |m| + 1
  {
    if m != map[] {
      assert |m| >= 1 && n - 1 in m;
      assert n <= |m| ==> n in m;
    }
  }

  lemma CreateKeepsSequence(m: Versions, n: nat, v: Version)
    requires InSequence(m) && IsNext(m, n) && !HasCandidate(m)
    ensures InSequence(m[n := v])
  {
    NextFollows(m, n);
    AppendKeepsSequence(m, n, v);
  }

  lemma AppendKeepsSequence(m: Versions, n: nat, v: Version)
    requires InSequence(m) && n == |m| + 1 && !HasCandidate(m)
    ensures InSequence(m[n := v])
  {
    var m': Versions := m[n := v];
    assert m'.Keys == m.Keys + {n};
    assert |m'| == |m'.Keys| == |m| + 1;
    forall k | k in m' ensures 1 <= k <= |m'| { assert k == n || k in m; }
    forall k | 1 <= k <= |m'| ensures k in m' { assert k == n || k in m; }
    forall k | k in m ensures m[k].status == Published {}
  }

  lemma DeleteKeepsSequence(m: Versions, n: nat)
    requires InSequence(m) && n in m && m[n].status == Draft
    ensures InSequence(m - {n})
  {
    var m' := m - {n};
    assert n == |m|;
    assert m'.Keys == m.Keys - {n};
    assert |m'| == |m'.Keys| == |m| - 1;
  }

  lemma StepKeepsSequences(decode: Decoder, renders: Renderer, w: World, a: Action, slug: string)
    requires forall s | s in w.templates :: InSequence(w.templates[s])
    requires Enabled(decode, renders, w, a) && slug in Apply(decode, w, a).templates
    ensures InSequence(Apply(decode, w, a).templates[slug])
  {
    var t := w.templates;
    match a {
      case DoCreate(s, c) => if slug !in t { FirstIsSequence(NewDraft(c, map[], w.next)); }
      case DoCreateVersion(key, c, base) =>
        if key.slug == slug {
          CreateKeepsSequence(t[slug], key.number, NewDraft(c, BaseAssets(t[slug], base), w.next));
        }
      case DoDelete(key) =>
        if key.slug == slug && IsDraft(t, slug, key.number) { DeleteKeepsSequence(t[slug], key.number); }
      case _ => PuttingKeepsSequences(decode, renders, w, a, slug);
    }
  }

  lemma FirstIsSequence(v: Version)
    ensures InSequence(map[1 := v])
  {
    var m: Versions := map[1 := v];
    assert |m| == |m.Keys| == 1;
  }

  /** The step puts a version in place of one that was no less published, or leaves the template alone. */
  predicate PutsInPlace(m: Versions, m': Versions, n: nat) {
    m' == m || (n in m && n in m' && m' == m[n := m'[n]] && (m'[n].status != Published ==> m[n].status != Published))
  }

  lemma EditPutsInPlace(decode: Decoder, w: World, a: Action, slug: string)
    requires slug in w.templates && (a.DoUpdate? || a.DoStoreAsset? || a.DoDeleteAsset?)
    ensures slug in Apply(decode, w, a).templates
    ensures PutsInPlace(w.templates[slug], Apply(decode, w, a).templates[slug], ChangedNumber(w, a))
  {}

  lemma FinishPutsInPlace(decode: Decoder, renders: Renderer, w: World, a: Action, slug: string)
    requires slug in w.templates && Enabled(decode, renders, w, a) && (a.FinishApprove? || a.FinishPublish?)
    ensures slug in Apply(decode, w, a).templates
    ensures PutsInPlace(w.templates[slug], Apply(decode, w, a).templates[slug], ChangedNumber(w, a))
  {}

  lemma PuttingKeepsSequences(decode: Decoder, renders: Renderer, w: World, a: Action, slug: string)
    requires slug in w.templates && InSequence(w.templates[slug])
    requires Enabled(decode, renders, w, a) && !a.DoCreate? && !a.DoCreateVersion? && !a.DoDelete?
    ensures slug in Apply(decode, w, a).templates && InSequence(Apply(decode, w, a).templates[slug])
  {
    var m, n := w.templates[slug], ChangedNumber(w, a);
    if a.DoUpdate? || a.DoStoreAsset? || a.DoDeleteAsset? {
      EditPutsInPlace(decode, w, a, slug);
    } else if a.FinishApprove? || a.FinishPublish? {
      FinishPutsInPlace(decode, renders, w, a, slug);
    }
    var m' := Apply(decode, w, a).templates[slug];
    if m' != m { PutKeepsSequence(m, n, m'[n]); }
  }

  function ChangedNumber(w: World, a: Action): nat {
    match a
    case DoUpdate(key, _) => key.number
    case DoStoreAsset(key, _, _) => key.number
    case DoDeleteAsset(key, _) => key.number
    case FinishApprove(h) => if h in w.handlers then w.handlers[h].key.number else 0
    case FinishPublish(h) => if h in w.handlers then w.handlers[h].key.number else 0
    case _ => 0
  }

  // ---- Edits of drafts ----

  predicate IsEdit(a: Action) {
    a.DoCreate? || a.DoCreateVersion? || a.DoUpdate? || a.DoDelete? || a.DoStoreAsset? || a.DoDeleteAsset?
  }

  /** What an edit makes of one version: it stays, or it is a draft that moved on, or a new draft. */
  ghost predicate Moved(w: World, w': World, key: Key)
    requires At(w', key)
  {
    var v := Row(w', key);
    || (At(w, key) && v == Row(w, key))
    || (v.status == Draft && WithinLimits(v) && v.incarnation == w.next && w.next < w'.next)
    || (v.status == Draft && WithinLimits(v) && At(w, key) && Row(w, key).status == Draft
        && v.incarnation == Row(w, key).incarnation
        && (v.revision > Row(w, key).revision
            || (v.revision == Row(w, key).revision && v.assets == Row(w, key).assets)))
  }

  /** An approved or published version is out of the reach of edits. */
  ghost predicate EditsOnlyDrafts(w: World, w': World, key: Key) {
    && (At(w', key) ==> Moved(w, w', key))
    && (At(w, key) && Row(w, key).status != Draft ==> At(w', key) && Row(w', key) == Row(w, key))
  }

  ghost predicate AllWithinLimits(w: World) {
    forall key | At(w, key) :: WithinLimits(Row(w, key))
  }

  lemma StoringStaysWithinLimits(assets: map<string, Asset>, name: string, a: Asset)
    requires |assets| <= MAX_ASSETS && FitsLimits(assets, name, a.size)
    ensures |assets[name := a]| <= MAX_ASSETS && Total(assets[name := a]) <= MAX_BYTES
  {
    TotalWith(assets, name, a);
    var after := assets[name := a];
    assert after.Keys == assets.Keys + {name};
    assert |after| == |after.Keys| && |assets| == |assets.Keys|;
    if name in assets { assert after.Keys == assets.Keys; }
  }

  lemma DeletingStaysWithinLimits(assets: map<string, Asset>, name: string)
    requires |assets| <= MAX_ASSETS && Total(assets) <= MAX_BYTES && name in assets
    ensures |assets - {name}| <= MAX_ASSETS && Total(assets - {name}) <= MAX_BYTES
  {
    TotalWithout(assets, name);
    var after := assets - {name};
    assert after.Keys == assets.Keys - {name};
    assert |after| == |after.Keys| && |assets| == |assets.Keys|;
  }

  lemma CreationEditsDrafts(decode: Decoder, renders: Renderer, w: World, a: Action, key: Key)
    requires Enabled(decode, renders, w, a) && AllWithinLimits(w) && (a.DoCreate? || a.DoCreateVersion?)
    ensures EditsOnlyDrafts(w, Apply(decode, w, a), key)
  {
    if a.DoCreateVersion? {
      var m := w.templates[a.key.slug];
      if a.base.Some? && a.base.value in m {
        assert At(w, Key(a.key.slug, a.base.value)) && Row(w, Key(a.key.slug, a.base.value)) == m[a.base.value];
      }
      assert !At(w, a.key);
    }
  }

  lemma StoringEditsDrafts(decode: Decoder, w: World, edited: Key, name: string, asset: Asset, key: Key)
    requires At(w, edited) ==> WithinLimits(Row(w, edited))
    ensures EditsOnlyDrafts(w, Apply(decode, w, DoStoreAsset(edited, name, asset)), key)
  {
    if CanStoreAsset(w.templates, edited.slug, edited.number, name, asset) {
      StoringStaysWithinLimits(Row(w, edited).assets, name, asset);
    }
  }

  lemma DeletingEditsDrafts(decode: Decoder, w: World, edited: Key, name: string, key: Key)
    requires At(w, edited) ==> WithinLimits(Row(w, edited))
    ensures EditsOnlyDrafts(w, Apply(decode, w, DoDeleteAsset(edited, name)), key)
  {
    if At(w, edited) && name in Row(w, edited).assets {
      DeletingStaysWithinLimits(Row(w, edited).assets, name);
    }
  }

  lemma EditEditsDrafts(decode: Decoder, renders: Renderer, w: World, a: Action, key: Key)
    requires Enabled(decode, renders, w, a) && AllWithinLimits(w) && IsEdit(a)
    ensures EditsOnlyDrafts(w, Apply(decode, w, a), key)
  {
    if a.DoCreate? || a.DoCreateVersion? {
      CreationEditsDrafts(decode, renders, w, a, key);
    } else if a.DoStoreAsset? {
      StoringEditsDrafts(decode, w, a.key, a.name, a.asset, key);
    } else if a.DoDeleteAsset? {
      DeletingEditsDrafts(decode, w, a.key, a.name, key);
    } else {
      assert At(w, key) ==> WithinLimits(Row(w, key));
    }
  }

  lemma EditsLeaveTheRest(decode: Decoder, w: World, a: Action)
    requires IsEdit(a)
    ensures var w' := Apply(decode, w, a);
            w' == w.(templates := w'.templates, next := w'.next) && w.next <= w'.next
  {}

  lemma EditedRowAgrees(decode: Decoder, renders: Renderer, w: World, w': World, key: Key)
    requires w' == w.(templates := w'.templates, next := w'.next) && w.next <= w'.next
    requires At(w, key) ==> RowAgrees(decode, renders, w, key)
    requires EditsOnlyDrafts(w, w', key) && At(w', key)
    ensures RowAgrees(decode, renders, w', key)
  {}

  lemma EditedStillSeen(w: World, w': World, key: Key, seen: Version, manifest: map<string, Asset>)
    requires w.next <= w'.next && EditsOnlyDrafts(w, w', key) && StillSeen(w, key, seen, manifest)
    ensures StillSeen(w', key, seen, manifest)
  {}

  lemma EditedSettled(w: World, w': World, key: Key, source: string)
    requires EditsOnlyDrafts(w, w', key) && IsSettled(w, key, source)
    ensures IsSettled(w', key, source)
  {}

  lemma EditedHandlerAgrees(decode: Decoder, renders: Renderer, w: World, w': World, pc: Handler)
    requires w' == w.(templates := w'.templates, next := w'.next) && w.next <= w'.next
    requires HandlerAgrees(decode, renders, w, pc) && EditsOnlyDrafts(w, w', pc.key)
    ensures HandlerAgrees(decode, renders, w', pc)
  {
    match pc {
      case Approving(key, seen) => EditedStillSeen(w, w', key, seen, seen.assets);
      case Checked(key, seen, manifest) => EditedStillSeen(w, w', key, seen, manifest);
      case _ => EditedSettled(w, w', pc.key, pc.seen.source);
    }
  }

  lemma RowsWithinLimits(decode: Decoder, renders: Renderer, w: World)
    requires RowsAgree(decode, renders, w)
    ensures AllWithinLimits(w)
  {
    forall key | At(w, key) ensures WithinLimits(Row(w, key)) { assert RowAgrees(decode, renders, w, key); }
  }

  lemma EditKeepsInv(decode: Decoder, renders: Renderer, w: World, a: Action)
    requires Inv(decode, renders, w) && Enabled(decode, renders, w, a) && IsEdit(a)
    ensures Inv(decode, renders, Apply(decode, w, a))
  {
    var w' := Apply(decode, w, a);
    RowsWithinLimits(decode, renders, w);
    EditsLeaveTheRest(decode, w, a);
    forall slug | slug in w'.templates ensures InSequence(w'.templates[slug]) {
      StepKeepsSequences(decode, renders, w, a, slug);
    }
    forall key | At(w', key) ensures RowAgrees(decode, renders, w', key) {
      EditEditsDrafts(decode, renders, w, a, key);
      assert At(w, key) ==> RowAgrees(decode, renders, w, key);
      EditedRowAgrees(decode, renders, w, w', key);
    }
    forall h | h in w'.handlers ensures HandlerAgrees(decode, renders, w', w'.handlers[h]) {
      EditEditsDrafts(decode, renders, w, a, w.handlers[h].key);
      EditedHandlerAgrees(decode, renders, w, w', w.handlers[h]);
    }
    forall slot | slot in w'.stored ensures IsSettled(w', slot.key, w'.stored[slot]) {
      EditEditsDrafts(decode, renders, w, a, slot.key);
      EditedSettled(w, w', slot.key, w.stored[slot]);
    }
  }

  // ---- Steps of handlers that leave the versions alone ----

  lemma SameRowAgrees(decode: Decoder, renders: Renderer, w: World, w': World, key: Key)
    requires w'.templates == w.templates && w'.next == w.next && w'.checks == w.checks && w'.seeded == w.seeded
    requires w.recorded <= w'.recorded
    requires At(w, key) && RowAgrees(decode, renders, w, key)
    ensures RowAgrees(decode, renders, w', key)
  {
    if Row(w, key).status == Published {
      var profile :| Slot(profile, key) in w.recorded;
      assert Slot(profile, key) in w'.recorded;
    }
  }

  lemma SameHandlerAgrees(decode: Decoder, renders: Renderer, w: World, w': World, pc: Handler)
    requires w'.templates == w.templates && w'.next == w.next && w.stored.Keys <= w'.stored.Keys
    requires w.recorded <= w'.recorded
    requires HandlerAgrees(decode, renders, w, pc)
    ensures HandlerAgrees(decode, renders, w', pc)
  {
    match pc {
      case Approving(key, seen) =>
      case Checked(key, seen, manifest) =>
      case _ => assert IsSettled(w, pc.key, pc.seen.source);
    }
  }

  predicate IsReading(a: Action) {
    a.BeginApprove? || a.CheckDraft? || a.BeginPublish? || a.PutArtifact? || a.RecordArtifact? || a.GiveUp?
  }

  lemma ReadingLeavesRows(decode: Decoder, w: World, a: Action)
    requires IsReading(a)
    ensures var w' := Apply(decode, w, a);
            w'.templates == w.templates && w'.next == w.next && w'.checks == w.checks && w'.seeded == w.seeded
                && w.recorded <= w'.recorded
            && w.stored.Keys <= w'.stored.Keys
  {}

  /** The handler that moves agrees in its new place: what it has just read is what is there. */
  lemma MovedHandlerAgrees(decode: Decoder, renders: Renderer, w: World, a: Action)
    requires Inv(decode, renders, w) && Enabled(decode, renders, w, a) && IsReading(a) && !a.GiveUp?
    ensures var w' := Apply(decode, w, a);
            a.handler in w'.handlers && HandlerAgrees(decode, renders, w', w'.handlers[a.handler])
  {
    if a.BeginApprove? || a.BeginPublish? {
      assert RowAgrees(decode, renders, w, a.key);
    } else {
      assert HandlerAgrees(decode, renders, w, w.handlers[a.handler]);
    }
  }

  lemma ArtifactsStayTrue(decode: Decoder, renders: Renderer, w: World, a: Action)
    requires Inv(decode, renders, w) && Enabled(decode, renders, w, a) && IsReading(a)
    ensures ArtifactsAgree(Apply(decode, w, a))
  {
    if a.PutArtifact? || a.RecordArtifact? {
      assert HandlerAgrees(decode, renders, w, w.handlers[a.handler]);
    }
    HandlersStoreSettledSources(decode, renders, w, a);
  }

  lemma HandlersStoreSettledSources(decode: Decoder, renders: Renderer, w: World, a: Action)
    requires ArtifactsAgree(w) && Enabled(decode, renders, w, a) && IsReading(a)
    requires a.PutArtifact? || a.RecordArtifact? ==> HandlerAgrees(decode, renders, w, w.handlers[a.handler])
    ensures ArtifactsAgree(Apply(decode, w, a))
  {
    var w' := Apply(decode, w, a);
    forall slot | slot in w'.stored ensures IsSettled(w', slot.key, w'.stored[slot]) {
      assert slot in w.stored ==> IsSettled(w, slot.key, w.stored[slot]);
    }
  }

  lemma ReadingKeepsInv(decode: Decoder, renders: Renderer, w: World, a: Action)
    requires Inv(decode, renders, w) && Enabled(decode, renders, w, a) && IsReading(a)
    ensures Inv(decode, renders, Apply(decode, w, a))
  {
    var w' := Apply(decode, w, a);
    ReadingLeavesRows(decode, w, a);
    forall key | At(w', key) ensures RowAgrees(decode, renders, w', key) {
      assert RowAgrees(decode, renders, w, key);
      SameRowAgrees(decode, renders, w, w', key);
    }
    forall h | h in w'.handlers ensures HandlerAgrees(decode, renders, w', w'.handlers[h]) {
      if h == a.handler && !a.GiveUp? {
        MovedHandlerAgrees(decode, renders, w, a);
      } else {
        assert h in w.handlers && w'.handlers[h] == w.handlers[h];
        SameHandlerAgrees(decode, renders, w, w', w.handlers[h]);
      }
    }
    ArtifactsStayTrue(decode, renders, w, a);
  }

  // ---- Approving and publishing ----

  predicate IsFinishing(a: Action) {
    a.FinishApprove? || a.FinishPublish?
  }

  /**
   Finishing moves at most the handler's own version, forward, and changes nothing else of it than
   status and contract.
   */
  ghost predicate Advanced(w: World, w': World, key: Key) {
    && (At(w, key) <==> At(w', key))
    && (At(w, key) ==>
          var v, v' := Row(w, key), Row(w', key);
          && v'.source == v.source && v'.sample == v.sample && v'.assets == v.assets
          && v'.revision == v.revision && v'.incarnation == v.incarnation
          && (v.status != Draft ==> v'.status != Draft && v'.schema == v.schema)
          && (v.status == Published ==> v' == v))
  }

  lemma FinishingAdvances(decode: Decoder, renders: Renderer, w: World, a: Action, key: Key)
    requires Enabled(decode, renders, w, a) && IsFinishing(a)
    ensures Advanced(w, Apply(decode, w, a), key)
    ensures At(w, key) && key != w.handlers[a.handler].key ==> Row(Apply(decode, w, a), key) == Row(w, key)
  {
    if a.FinishApprove? {
      ApprovingAdvances(decode, w, a.handler, key);
    } else {
      PublishingAdvances(decode, w, a.handler, key);
    }
  }

  lemma ApprovingAdvances(decode: Decoder, w: World, h: Id, key: Key)
    requires h in w.handlers && w.handlers[h].Checked?
    ensures Advanced(w, ApproveNow(decode, w, h), key)
    ensures At(w, key) && key != w.handlers[h].key ==> Row(ApproveNow(decode, w, h), key) == Row(w, key)
  {}

  lemma PublishingAdvances(decode: Decoder, w: World, h: Id, key: Key)
    requires h in w.handlers
    ensures Advanced(w, Apply(decode, w, FinishPublish(h)), key)
    ensures At(w, key) && key != w.handlers[h].key ==> Row(Apply(decode, w, FinishPublish(h)), key) == Row(w, key)
  {}

  lemma FinishingLeavesTheRest(decode: Decoder, renders: Renderer, w: World, a: Action)
    requires Enabled(decode, renders, w, a) && IsFinishing(a)
    ensures var w' := Apply(decode, w, a);
            w'.next == w.next && w'.stored == w.stored && w'.recorded == w.recorded && w'.seeded == w.seeded
            && w'.handlers == w.handlers - {a.handler}
            && w'.checks - {w.handlers[a.handler].key} == w.checks - {w.handlers[a.handler].key}
  {}

  lemma AdvancedHandlerAgrees(decode: Decoder, renders: Renderer, w: World, w': World, pc: Handler)
    requires Advanced(w, w', pc.key) && HandlerAgrees(decode, renders, w, pc)
    requires w'.next == w.next && w'.stored == w.stored && w'.recorded == w.recorded
    ensures HandlerAgrees(decode, renders, w', pc)
  {}

  /**
   The version just approved is the one that was checked: nothing it depends on changed since, or the
   guard had failed.
   */
  lemma ApprovedRowAgrees(decode: Decoder, renders: Renderer, w: World, h: Id)
    requires Inv(decode, renders, w) && Enabled(decode, renders, w, FinishApprove(h))
    requires At(w, w.handlers[h].key)
    ensures At(Apply(decode, w, FinishApprove(h)), w.handlers[h].key)
    ensures RowAgrees(decode, renders, Apply(decode, w, FinishApprove(h)), w.handlers[h].key)
  {
    var pc, w' := w.handlers[h], Apply(decode, w, FinishApprove(h));
    assert HandlerAgrees(decode, renders, w, pc);
    assert RowAgrees(decode, renders, w, pc.key);
    FinishingAdvances(decode, renders, w, FinishApprove(h), pc.key);
    FinishingLeavesTheRest(decode, renders, w, FinishApprove(h));
    if CanApprove(w.templates, pc.key.slug, pc.key.number, pc.seen) {
      assert IsChecked(decode, renders, Row(w', pc.key), Check(pc.seen, pc.manifest));
    } else {
      SameRowAgrees(decode, renders, w, w', pc.key);
    }
  }

  lemma PublishedRowAgrees(decode: Decoder, renders: Renderer, w: World, h: Id)
    requires Inv(decode, renders, w) && Enabled(decode, renders, w, FinishPublish(h))
    requires At(w, w.handlers[h].key)
    ensures At(Apply(decode, w, FinishPublish(h)), w.handlers[h].key)
    ensures RowAgrees(decode, renders, Apply(decode, w, FinishPublish(h)), w.handlers[h].key)
  {
    assert HandlerAgrees(decode, renders, w, w.handlers[h]);
    assert RowAgrees(decode, renders, w, w.handlers[h].key);
    SettledRowAgrees(decode, renders, w, h);
  }

  lemma SettledRowAgrees(decode: Decoder, renders: Renderer, w: World, h: Id)
    requires Enabled(decode, renders, w, FinishPublish(h)) && At(w, w.handlers[h].key)
    requires HandlerAgrees(decode, renders, w, w.handlers[h]) && RowAgrees(decode, renders, w, w.handlers[h].key)
    ensures At(Apply(decode, w, FinishPublish(h)), w.handlers[h].key)
    ensures RowAgrees(decode, renders, Apply(decode, w, FinishPublish(h)), w.handlers[h].key)
  {
    PublishingAdvances(decode, w, h, w.handlers[h].key);
    assert Slot(w.handlers[h].profile, w.handlers[h].key) in w.recorded;
  }

  lemma OtherRowAgrees(decode: Decoder, renders: Renderer, w: World, a: Action, key: Key)
    requires Enabled(decode, renders, w, a) && IsFinishing(a) && key != w.handlers[a.handler].key
    requires At(w, key) && RowAgrees(decode, renders, w, key)
    ensures At(Apply(decode, w, a), key) && RowAgrees(decode, renders, Apply(decode, w, a), key)
  {
    FinishingAdvances(decode, renders, w, a, key);
    FinishingLeavesTheRest(decode, renders, w, a);
    var mine, w' := w.handlers[a.handler].key, Apply(decode, w, a);
    assert key in w.checks <==> key in w'.checks - {mine};
    assert key in w.checks ==> (w'.checks - {mine})[key] == (w.checks - {mine})[key];
  }

  lemma FinishingKeepsInv(decode: Decoder, renders: Renderer, w: World, a: Action)
    requires Inv(decode, renders, w) && Enabled(decode, renders, w, a) && IsFinishing(a)
    ensures Inv(decode, renders, Apply(decode, w, a))
  {
    var w' := Apply(decode, w, a);
    FinishingLeavesTheRest(decode, renders, w, a);
    forall slug | slug in w'.templates ensures InSequence(w'.templates[slug]) {
      StepKeepsSequences(decode, renders, w, a, slug);
    }
    forall key | At(w', key) ensures RowAgrees(decode, renders, w', key) {
      FinishingAdvances(decode, renders, w, a, key);
      if key != w.handlers[a.handler].key {
        assert RowAgrees(decode, renders, w, key);
        OtherRowAgrees(decode, renders, w, a, key);
      } else if a.FinishApprove? {
        ApprovedRowAgrees(decode, renders, w, a.handler);
      } else {
        PublishedRowAgrees(decode, renders, w, a.handler);
      }
    }
    forall h | h in w'.handlers ensures HandlerAgrees(decode, renders, w', w'.handlers[h]) {
      FinishingAdvances(decode, renders, w, a, w.handlers[h].key);
      AdvancedHandlerAgrees(decode, renders, w, w', w.handlers[h]);
    }
    forall slot | slot in w'.stored ensures IsSettled(w', slot.key, w'.stored[slot]) {
      FinishingAdvances(decode, renders, w, a, slot.key);
      assert IsSettled(w, slot.key, w.stored[slot]);
    }
  }

  lemma StepKeepsInv(decode: Decoder, renders: Renderer, w: World, a: Action)
    requires Inv(decode, renders, w) && Enabled(decode, renders, w, a)
    ensures Inv(decode, renders, Apply(decode, w, a))
  {
    if IsEdit(a) {
      EditKeepsInv(decode, renders, w, a);
    } else if IsReading(a) {
      ReadingKeepsInv(decode, renders, w, a);
    } else {
      FinishingKeepsInv(decode, renders, w, a);
    }
  }
}
