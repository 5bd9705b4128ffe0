/**
 When writers of artifacts do no harm. The protocol assumes that they respect what is
 recorded; here is exactly what that assumption has to rule out.
 */
module ArtifactWrites {
  import opened Common
  import opened MigrationModel
  import opened MigrationProtocol
  import opened StorageReads

  /**
   Storing contents at a key leaves recorded objects readable exactly when no available placement
   there has another digest.
   */
  lemma StoringIsSafeExactlyWhen(hash: Hash, w: World, a: Action)
    requires PlacementsBacked(hash, w) && a.StoreArtifact?
    ensures PlacementsBacked(hash, Apply(hash, w, a)) <==>
            forall p | p in w.db.placements && w.db.placements[p].state == Available && p.1 == a.profile
                && w.db.placements[p].key == a.key ::
              w.db.placements[p].digest == hash(a.contents)
  {
    var w' := Apply(hash, w, a);
    forall p | p in w.db.placements && w.db.placements[p].state == Available
      ensures Backed(hash, w', p, w.db.placements[p]) <==>
              (p.1 == a.profile && w.db.placements[p].key == a.key ==> w.db.placements[p].digest == hash(a.contents))
    {
      assert Backed(hash, w, p, w.db.placements[p]);
    }
  }

  /** The object's other placements hold what is now recorded for it. */
  ghost predicate AgreesWithRecord(hash: Hash, db: Db, a: Action)
    requires a.Record?
  {
    forall p | p in db.placements && db.placements[p].state == Available && p.0 == a.obj && p.1 != a.profile ::
      db.placements[p].key == a.key && db.placements[p].digest == hash(a.contents)
  }

  /**
   Recording an artifact that is in its store keeps every available placement truthful
   exactly when the object's other placements hold the same contents, or when another
   object has the key, for then nothing is recorded. The statements do not look at the
   other placements.
   */
  lemma RecordingIsSafeExactlyWhen(hash: Hash, w: World, a: Action)
    requires PlacementsBacked(hash, w) && a.Record?
    requires Location(a.profile, a.key) in w.stores && w.stores[Location(a.profile, a.key)] == a.contents
    ensures PlacementsBacked(hash, Apply(hash, w, a)) <==>
              !KeyIsFree(w.db, a.obj, a.key) || AgreesWithRecord(hash, w.db, a)
  {
    var w' := Apply(hash, w, a);
    if !KeyIsFree(w.db, a.obj, a.key) {
      assert w' == w;
    } else {
      if AgreesWithRecord(hash, w.db, a) {
        forall p | p in w'.db.placements && w'.db.placements[p].state == Available
          ensures Backed(hash, w', p, w'.db.placements[p])
        {
          RecordedIsBacked(hash, w, a, p);
        }
      }
      if PlacementsBacked(hash, w') { BackedMeansAgreement(hash, w, a); }
    }
  }

  lemma BackedMeansAgreement(hash: Hash, w: World, a: Action)
    requires a.Record? && KeyIsFree(w.db, a.obj, a.key) && PlacementsBacked(hash, Apply(hash, w, a))
    ensures AgreesWithRecord(hash, w.db, a)
  {
    var w' := Apply(hash, w, a);
    forall p | p in w.db.placements && w.db.placements[p].state == Available && p.0 == a.obj && p.1 != a.profile
      ensures w.db.placements[p].key == a.key && w.db.placements[p].digest == hash(a.contents)
    {
      assert Backed(hash, w', p, w'.db.placements[p]);
    }
  }

  lemma RecordedIsBacked(hash: Hash, w: World, a: Action, p: Pair)
    requires PlacementsBacked(hash, w) && a.Record? && KeyIsFree(w.db, a.obj, a.key) && AgreesWithRecord(hash, w.db, a)
    requires Location(a.profile, a.key) in w.stores && w.stores[Location(a.profile, a.key)] == a.contents
    requires p in Apply(hash, w, a).db.placements && Apply(hash, w, a).db.placements[p].state == Available
    ensures Backed(hash, Apply(hash, w, a), p, Apply(hash, w, a).db.placements[p])
  {
    if p != Pair(a.obj, a.profile) { assert Backed(hash, w, p, w.db.placements[p]); }
  }

  /**
   A writer that comes late, say a render attempt that lost its lease, can overwrite a
   recorded artifact with other contents: the object then cannot be read at all.
   */
  lemma LateWriterBreaksReads(hash: Hash, w: World, w': World, p: Pair, late: Bytes, listing: seq<Pair>,
                              preferred: Id, r: Reading)
    requires PlacementsBacked(hash, w) && IsAvailable(w.db, p.0, p.1)
    requires forall q | IsAvailable(w.db, p.0, q) :: q == p.1
    requires w' == Apply(hash, w, StoreArtifact(p.0, p.1, w.db.placements[p].key, late))
    requires hash(late) != w.db.placements[p].digest
    requires IsListing(w'.db, p.0, preferred, listing) && listing != []
    requires Answers(hash, SourcesOf(w'.db, listing), StoreAnswers(w'.stores, map[]), None, r)
    ensures r == NotRead(IntegrityFailed)
  {
    OnlyListed(w'.db, p, preferred, listing);
    var placement := w.db.placements[p];
    OnlySourceFails(hash, SourcesOf(w'.db, listing), StoreAnswers(w'.stores, map[]), Location(p.1, placement.key),
                    late, placement.digest, r);
  }

  lemma OnlyListed(db: Db, p: Pair, preferred: Id, listing: seq<Pair>)
    requires IsListing(db, p.0, preferred, listing)
    requires forall q | IsAvailable(db, p.0, q) :: q == p.1
    ensures forall i | 0 <= i < |listing| :: listing[i] == p
  {
    forall i | 0 <= i < |listing| ensures listing[i] == p {
      assert listing[i] in listing;
    }
  }

  lemma OnlySourceFails(hash: Hash, sources: seq<Source>, fetch: Location -> Answer, at: Location, late: Bytes,
                        digest: Digest, r: Reading)
    requires sources != [] && Answers(hash, sources, fetch, None, r)
    requires forall i | 0 <= i < |sources| :: sources[i] == Source(at, Some(digest))
    requires fetch(at) == Contents(late) && hash(late) != digest
    ensures r == NotRead(IntegrityFailed)
  {
    forall i | 0 <= i < |sources| ensures !IsGood(hash, fetch(sources[i].at), sources[i].digest, None) {}
  }
}
