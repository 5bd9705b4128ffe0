/** Template versions and their assets as rows, and the transactions on them. */
module TemplateModel {
  import opened Common
  import opened Json
  import opened ContractSchema

  datatype Status = Draft | Approved | Published

  datatype Asset = Asset(digest: Digest, size: nat)

  /** `incarnation` tells apart drafts that were discarded and created again under the same number. */
  datatype Version = Version(status: Status, source: string, sample: map<string, Value>, schema: Schema,
                             assets: map<string, Asset>, revision: nat, incarnation: nat)

  type Versions = map<nat, Version>
  type Templates = map<string, Versions>

  datatype Content = Content(source: string, sample: map<string, Value>, schema: Schema)

  const MAX_ASSETS := 100
  const MAX_BYTES := 20 * 1024 * 1024

  predicate Exists(t: Templates, slug: string, n: nat) {
    slug in t && n in t[slug]
  }

  predicate IsDraft(t: Templates, slug: string, n: nat) {
    Exists(t, slug, n) && t[slug][n].status == Draft
  }

  function Put(t: Templates, slug: string, n: nat, v: Version): Templates
    requires slug in t
  {
    var versions: Versions := t[slug][n := v];
    t[slug := versions]
  }

  function NewDraft(c: Content, assets: map<string, Asset>, incarnation: nat): Version {
    Version(Draft, c.source, c.sample, c.schema, assets, if assets == map[] then 0 else 1, incarnation)
  }

  function CreateTemplate(t: Templates, slug: string, c: Content, incarnation: nat): Templates {
    if slug in t then t else t[slug := map[1 := NewDraft(c, map[], incarnation)]]
  }

  /** One more than the highest number, or 1. */
  predicate IsNext(m: Versions, n: nat) {
    n > 0 && (forall k | k in m :: k < n) && (m != map[] ==> n - 1 in m) && (m == map[] ==> n == 1)
  }

  /** At most one version of a template may be draft or approved; the database refuses a second. */
  predicate HasCandidate(m: Versions) {
    exists k | k in m :: m[k].status != Published
  }

  /** The new version exists already when the base is looked for, so it may be its own base. */
  predicate BaseExists(m: Versions, n: nat, base: Option<nat>) {
    base.Some? ==> base.value in m || base.value == n
  }

  predicate CanCreateVersion(t: Templates, slug: string, n: nat, base: Option<nat>) {
    slug in t && IsNext(t[slug], n) && !HasCandidate(t[slug]) && BaseExists(t[slug], n, base)
  }

  function BaseAssets(m: Versions, base: Option<nat>): map<string, Asset> {
    if base.Some? && base.value in m then m[base.value].assets else map[]
  }

  function CreateVersion(t: Templates, slug: string, n: nat, c: Content, base: Option<nat>,
                         incarnation: nat): Templates {
    if CanCreateVersion(t, slug, n, base) then
      Put(t, slug, n, NewDraft(c, BaseAssets(t[slug], base), incarnation))
    else t
  }

  function UpdateDraft(t: Templates, slug: string, n: nat, c: Content): Templates {
    if IsDraft(t, slug, n) then
      Put(t, slug, n, t[slug][n].(source := c.source, sample := c.sample, schema := c.schema))
    else t
  }

  function DeleteDraft(t: Templates, slug: string, n: nat): Templates {
    if IsDraft(t, slug, n) then t[slug := t[slug] - {n}] else t
  }

  /** The bytes of all assets together. */
  ghost function Total(assets: map<string, Asset>): nat {
    if assets == map[] then 0
    else var name :| name in assets; assets[name].size + Total(assets - {name})
  }

  function SizeOf(assets: map<string, Asset>, name: string): nat {
    if name in assets then assets[name].size else 0
  }

  /** An asset of no bytes counts as new when its file is stored again. */
  ghost predicate FitsLimits(assets: map<string, Asset>, name: string, size: nat) {
    && (SizeOf(assets, name) == 0 ==> |assets| < MAX_ASSETS)
    && Total(assets) - SizeOf(assets, name) + size <= MAX_BYTES
  }

  ghost predicate CanStoreAsset(t: Templates, slug: string, n: nat, name: string, a: Asset) {
    IsDraft(t, slug, n) && FitsLimits(t[slug][n].assets, name, a.size)
  }

  /** The manifest and its revision change together. */
  function WithAssets(t: Templates, slug: string, n: nat, assets: map<string, Asset>): Templates
    requires Exists(t, slug, n)
  {
    Put(t, slug, n, t[slug][n].(assets := assets, revision := t[slug][n].revision + 1))
  }

  ghost function StoreAsset(t: Templates, slug: string, n: nat, name: string, a: Asset): Templates {
    if CanStoreAsset(t, slug, n, name, a) then WithAssets(t, slug, n, t[slug][n].assets[name := a]) else t
  }

  function DeleteAsset(t: Templates, slug: string, n: nat, name: string): Templates {
    if IsDraft(t, slug, n) && name in t[slug][n].assets then WithAssets(t, slug, n, t[slug][n].assets - {name}) else t
  }

  /** Only a draft that still has the source, the sample and the asset revision that were looked at is approved. */
  predicate CanApprove(t: Templates, slug: string, n: nat, seen: Version) {
    && IsDraft(t, slug, n)
    && t[slug][n].source == seen.source && t[slug][n].sample == seen.sample && t[slug][n].revision == seen.revision
  }

  function Approve(t: Templates, slug: string, n: nat, seen: Version, schema: Schema): Templates {
    if CanApprove(t, slug, n, seen) then
      Put(t, slug, n, t[slug][n].(status := Approved, sample := seen.sample, schema := schema))
    else t
  }

  predicate CanPublish(t: Templates, slug: string, n: nat) {
    Exists(t, slug, n) && t[slug][n].status == Approved
  }

  function Publish(t: Templates, slug: string, n: nat): Templates {
    if CanPublish(t, slug, n) then Put(t, slug, n, t[slug][n].(status := Published)) else t
  }

  // ---- Limits ----

  /** The total does not depend on the order of summation. */
  lemma {:induction false} TotalWithout(assets: map<string, Asset>, name: string)
    requires name in assets
    ensures Total(assets) == assets[name].size + Total(assets - {name})
    decreases |assets|
  {
    var first :| first in assets && Total(assets) == assets[first].size + Total(assets - {first});
    if first != name {
      TotalWithout(assets - {first}, name);
      TotalWithout(assets - {name}, first);
      assert assets - {first} - {name} == assets - {name} - {first};
    }
  }

  lemma TotalOfOthers(assets: map<string, Asset>, name: string)
    ensures Total(assets - {name}) == Total(assets) - SizeOf(assets, name)
  {
    if name in assets { TotalWithout(assets, name); } else { assert assets - {name} == assets; }
  }

  lemma TotalWith(assets: map<string, Asset>, name: string, a: Asset)
    ensures Total(assets[name := a]) == Total(assets) - SizeOf(assets, name) + a.size
  {
    TotalWithout(assets[name := a], name);
    assert assets[name := a] - {name} == assets - {name};
    TotalOfOthers(assets, name);
  }
}
