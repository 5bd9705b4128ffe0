/** Reading an object back: its available placements are tried in order until one passes the digest checks. */
module StorageReads {
  import opened Common
  import opened MigrationModel
  import opened MigrationProtocol

  /** What a backend answers: its profile may not resolve, and its client may fail. */
  datatype Answer = Contents(bytes: Bytes) | Unresolved | Unreadable

  datatype ReadError = NotFound | ProfileUnresolved | BackendFailed | IntegrityFailed

  datatype Reading = Read(bytes: Bytes) | NotRead(error: ReadError)

  /** An available placement as the read path sees it; a missing digest is a legacy row. */
  datatype Source = Source(at: Location, digest: Option<Digest>)

  predicate MatchesDigest(hash: Hash, contents: Bytes, expected: Option<Digest>) {
    expected.Some? ==> hash(contents) == expected.value
  }

  predicate IsGood(hash: Hash, answer: Answer, digest: Option<Digest>, expected: Option<Digest>) {
    && answer.Contents?
    && MatchesDigest(hash, answer.bytes, if digest.Some? then digest else expected)
    && MatchesDigest(hash, answer.bytes, expected)
  }

  function WhyNot(answer: Answer): ReadError {
    match answer
    case Unresolved => ProfileUnresolved
    case Unreadable => BackendFailed
    case Contents(_) => IntegrityFailed
  }

  /** The first good source in order answers; when none is good, the last one tried says why. */
  ghost predicate Answers(hash: Hash, sources: seq<Source>, fetch: Location -> Answer, expected: Option<Digest>,
                          r: Reading)
    requires sources != []
  {
    match r
    case Read(bytes) =>
      exists i | 0 <= i < |sources| ::
        && fetch(sources[i].at) == Contents(bytes)
        && IsGood(hash, fetch(sources[i].at), sources[i].digest, expected)
        && forall j | 0 <= j < i :: !IsGood(hash, fetch(sources[j].at), sources[j].digest, expected)
    case NotRead(error) =>
      && (forall i | 0 <= i < |sources| :: !IsGood(hash, fetch(sources[i].at), sources[i].digest, expected))
      && error == WhyNot(fetch(sources[|sources| - 1].at))
  }

  /** With no placement at all, only a legacy store can answer. */
  ghost predicate LegacyAnswers(hash: Hash, legacy: Option<string -> Answer>, key: string,
                                expected: Option<Digest>, r: Reading) {
    if legacy.None? || key == "" then r == NotRead(NotFound)
    else match legacy.value(key)
         case Contents(bytes) => r == if MatchesDigest(hash, bytes, expected) then Read(bytes)
           else NotRead(IntegrityFailed)
         case _ => r == NotRead(WhyNot(legacy.value(key)))
  }

  method ReadFrom(hash: Hash, sources: seq<Source>, fetch: Location -> Answer, legacy: Option<string -> Answer>,
                  legacyKey: string, expected: Option<Digest>) returns (r: Reading)
    ensures sources == [] ==> LegacyAnswers(hash, legacy, legacyKey, expected, r)
    ensures sources != [] ==> Answers(hash, sources, fetch, expected, r)
    ensures r.Read? && expected.Some? ==> hash(r.bytes) == expected.value
    ensures r.Read? ==>
              if sources == [] then legacy.Some? && legacyKey != "" && legacy.value(legacyKey) == Contents(r.bytes)
              else exists source :: source in sources && fetch(source.at) == Contents(r.bytes)
                     && (source.digest.Some? ==> hash(r.bytes) == source.digest.value)
  {
    if sources == [] {
      if legacy.None? || legacyKey == "" { return NotRead(NotFound); }
      var answer := legacy.value(legacyKey);
      if !answer.Contents? { return NotRead(WhyNot(answer)); }
      if !MatchesDigest(hash, answer.bytes, expected) { return NotRead(IntegrityFailed); }
      return Read(answer.bytes);
    }
    var lastError := NotFound;
    for i := 0 to |sources|
      invariant forall j | 0 <= j < i :: !IsGood(hash, fetch(sources[j].at), sources[j].digest, expected)
      invariant i > 0 ==> lastError == WhyNot(fetch(sources[i - 1].at))
    {
      var answer := fetch(sources[i].at);
      if !answer.Contents? {
        lastError := WhyNot(answer);
        continue;
      }
      var digest := if sources[i].digest.Some? then sources[i].digest else expected;
      if !MatchesDigest(hash, answer.bytes, digest) || !MatchesDigest(hash, answer.bytes, expected) {
        lastError := IntegrityFailed;
        continue;
      }
      return Read(answer.bytes);
    }
    return NotRead(lastError);
  }

  // ---- Reading recorded objects ----

  /** The preferred profile first, then the placements verified last. */
  ghost predicate InOrder(db: Db, preferred: Id, p: Pair, q: Pair)
    requires p in db.placements && q in db.placements
  {
    if p.1 == preferred || q.1 == preferred then p.1 == preferred
    else match db.placements[q].verifiedAt
         case None => true
         case Some(late) => db.placements[p].verifiedAt.Some? && db.placements[p].verifiedAt.value >= late
  }

  /** A result of the placement query for one object; ties may come in any order. */
  ghost predicate IsListing(db: Db, obj: Id, preferred: Id, listing: seq<Pair>) {
    && (forall p | p in listing :: p.0 == obj && IsAvailable(db, obj, p.1))
    && (forall profile | IsAvailable(db, obj, profile) :: Pair(obj, profile) in listing)
    && (forall i, j | 0 <= i < j < |listing| ::
        listing[i] != listing[j] && InOrder(db, preferred, listing[i], listing[j]))
  }

  function SourcesOf(db: Db, listing: seq<Pair>): (sources: seq<Source>)
    requires forall p | p in listing :: p in db.placements
    ensures |sources| == |listing|
    ensures forall i | 0 <= i < |listing| ::
              sources[i] == Source(Location(listing[i].1, db.placements[listing[i]].key),
                                   Some(db.placements[listing[i]].digest))
  {
    seq(|listing|, i requires 0 <= i < |listing| =>
      Source(Location(listing[i].1, db.placements[listing[i]].key), Some(db.placements[listing[i]].digest)))
  }

  /** Stores answer what they hold, except those of profiles that are out of reach. */
  ghost function StoreAnswers(stores: map<Location, Bytes>, outage: map<Id, Answer>): Location -> Answer {
    (at: Location) =>
      if at.profile in outage then outage[at.profile]
      else if at in stores then Contents(stores[at]) else Unreadable
  }

  /** `r` is a result of reading the object while the profiles of `outage` cannot answer. */
  ghost predicate CanRead(hash: Hash, w: World, obj: Id, preferred: Id, expected: Option<Digest>,
                          outage: map<Id, Answer>, r: Reading) {
    exists listing: seq<Pair> ::
      && IsListing(w.db, obj, preferred, listing) && listing != []
      && Answers(hash, SourcesOf(w.db, listing), StoreAnswers(w.stores, outage), expected, r)
  }

  /** An outage never answers with contents. */
  predicate IsOutage(outage: map<Id, Answer>) {
    forall profile | profile in outage :: !outage[profile].Contents?
  }

  predicate ExpectsRecorded(db: Db, obj: Id, expected: Option<Digest>) {
    obj in db.objects && (expected.Some? ==> expected.value == db.objects[obj].digest)
  }

  lemma ReachableIsGood(hash: Hash, w: World, obj: Id, expected: Option<Digest>, outage: map<Id, Answer>, p: Pair)
    requires PlacementsBacked(hash, w) && ExpectsRecorded(w.db, obj, expected) && IsOutage(outage)
    requires p.0 == obj && IsAvailable(w.db, obj, p.1)
    ensures var placement := w.db.placements[p];
            IsGood(hash, StoreAnswers(w.stores, outage)(Location(p.1, placement.key)), Some(placement.digest), expected)
            <==> p.1 !in outage
  {
    assert Backed(hash, w, p, w.db.placements[p]);
  }

  /**
   A read of a recorded object succeeds exactly when some profile that holds it is in
   reach, and then returns only contents with the recorded digest. No order of the
   placements matters for either.
   */
  lemma ReadsRecorded(hash: Hash, w: World, obj: Id, preferred: Id, expected: Option<Digest>,
                      outage: map<Id, Answer>, r: Reading)
    requires PlacementsBacked(hash, w) && ExpectsRecorded(w.db, obj, expected) && IsOutage(outage)
    requires CanRead(hash, w, obj, preferred, expected, outage, r)
    ensures r.Read? <==> exists profile :: IsAvailable(w.db, obj, profile) && profile !in outage
    ensures r.Read? ==> hash(r.bytes) == w.db.objects[obj].digest
  {
    var listing: seq<Pair> :|
      && IsListing(w.db, obj, preferred, listing) && listing != []
      && Answers(hash, SourcesOf(w.db, listing), StoreAnswers(w.stores, outage), expected, r);
    forall p | p in listing
      ensures Backed(hash, w, p, w.db.placements[p])
      ensures IsGood(hash, StoreAnswers(w.stores, outage)(Location(p.1, w.db.placements[p].key)),
                     Some(w.db.placements[p].digest), expected)
              <==> p.1 !in outage
    {
      ReachableIsGood(hash, w, obj, expected, outage, p);
    }
    AnswerIsGood(hash, SourcesOf(w.db, listing), StoreAnswers(w.stores, outage), expected, r);
    if r.Read? {
      var i := GoodSource(hash, SourcesOf(w.db, listing), StoreAnswers(w.stores, outage), expected, r);
      assert listing[i] in listing;
    } else {
      forall profile | IsAvailable(w.db, obj, profile) ensures profile in outage {
        var i :| 0 <= i < |listing| && listing[i] == Pair(obj, profile);
        assert listing[i] in listing;
      }
    }
  }

  lemma GoodSource(hash: Hash, sources: seq<Source>, fetch: Location -> Answer, expected: Option<Digest>,
                   r: Reading) returns (i: nat)
    requires sources != [] && Answers(hash, sources, fetch, expected, r) && r.Read?
    ensures i < |sources| && fetch(sources[i].at) == Contents(r.bytes)
    ensures IsGood(hash, fetch(sources[i].at), sources[i].digest, expected)
  {
    i :| 0 <= i < |sources| && fetch(sources[i].at) == Contents(r.bytes)
         && IsGood(hash, fetch(sources[i].at), sources[i].digest, expected);
  }

  lemma AnswerIsGood(hash: Hash, sources: seq<Source>, fetch: Location -> Answer, expected: Option<Digest>, r: Reading)
    requires sources != [] && Answers(hash, sources, fetch, expected, r)
    ensures r.NotRead? ==>
              forall i | 0 <= i < |sources| :: !IsGood(hash, fetch(sources[i].at), sources[i].digest, expected)
  {}

  // ---- Reading is always possible ----

  ghost predicate Sorted(db: Db, preferred: Id, listing: seq<Pair>)
    requires forall p | p in listing :: p in db.placements
  {
    forall i, j | 0 <= i < j < |listing| :: listing[i] != listing[j] && InOrder(db, preferred, listing[i], listing[j])
  }

  lemma {:induction false} FirstInOrder(db: Db, preferred: Id, obj: Id, found: set<Pair>) returns (first: Pair)
    requires found != {} && forall p | p in found :: p in db.placements && p.0 == obj
    ensures first in found && forall p | p in found && p != first :: InOrder(db, preferred, first, p)
  {
    var x :| x in found;
    first := x;
    if found != {x} {
      var other := FirstInOrder(db, preferred, obj, found - {x});
      if InOrder(db, preferred, other, x) { first := other; }
      forall p | p in found && p != first ensures InOrder(db, preferred, first, p) {
        assert p == x || p in found - {x};
      }
    }
  }

  lemma {:induction false} SortedListing(db: Db, preferred: Id, obj: Id, found: set<Pair>) returns (listing: seq<Pair>)
    requires forall p | p in found :: p in db.placements && p.0 == obj
    ensures forall p :: p in listing <==> p in found
    ensures Sorted(db, preferred, listing)
  {
    listing := [];
    if found != {} {
      var first := FirstInOrder(db, preferred, obj, found);
      var rest := SortedListing(db, preferred, obj, found - {first});
      listing := [first] + rest;
      forall i, j | 0 <= i < j < |listing|
        ensures listing[i] != listing[j] && InOrder(db, preferred, listing[i], listing[j])
      {
        assert listing[j] == rest[j - 1] && rest[j - 1] in rest;
        if i > 0 { assert listing[i] == rest[i - 1]; }
      }
    }
  }

  /** The placement query always has a result. */
  lemma ListingExists(db: Db, preferred: Id, obj: Id) returns (listing: seq<Pair>)
    ensures IsListing(db, obj, preferred, listing)
  {
    var found := set p | p in db.placements && p.0 == obj && db.placements[p].state == Available;
    listing := SortedListing(db, preferred, obj, found);
    forall profile | IsAvailable(db, obj, profile) ensures Pair(obj, profile) in listing {
      assert Pair(obj, profile) in found;
    }
  }

  lemma {:induction false} AnswerExists(hash: Hash, sources: seq<Source>, fetch: Location -> Answer,
                                        expected: Option<Digest>)
    returns (r: Reading)
    requires sources != []
    ensures Answers(hash, sources, fetch, expected, r)
  {
    var i := 0;
    while i < |sources| && !IsGood(hash, fetch(sources[i].at), sources[i].digest, expected)
      invariant i <= |sources|
      invariant forall j | 0 <= j < i :: !IsGood(hash, fetch(sources[j].at), sources[j].digest, expected)
    {
      i := i + 1;
    }
    r := if i < |sources| then Read(fetch(sources[i].at).bytes) else NotRead(WhyNot(fetch(sources[|sources| - 1].at)));
  }

  /** An object that has an available placement can be asked for, whatever is out of reach. */
  lemma ReadingExists(hash: Hash, w: World, obj: Id, profile: Id, preferred: Id, expected: Option<Digest>,
                      outage: map<Id, Answer>)
    returns (r: Reading)
    requires IsAvailable(w.db, obj, profile)
    ensures CanRead(hash, w, obj, preferred, expected, outage, r)
  {
    var listing := ListingExists(w.db, preferred, obj);
    assert Pair(obj, profile) in listing;
    r := AnswerExists(hash, SourcesOf(w.db, listing), StoreAnswers(w.stores, outage), expected);
  }
}
