/** Validation of data against a generated schema: the error set, and the walk that collects it. */
module ContractValidate {
  import opened Json
  import opened ContractSchema

  const MAX_DEPTH := 32
  const MAX_PATHS := 2000

  datatype Segment = Field(name: string) | Index(index: nat)

  /** A reported error; the engine's path and message texts are renderings of these. */
  datatype ValidationError =
    | Expected(path: seq<Segment>, types: set<TypeName>)
    | Missing(path: seq<Segment>)

  datatype Outcome = Done | TooComplex | InvalidSchema

  /** Every error a complete validation reports. */
  ghost function ErrorSet(s: Schema, v: Value, path: seq<Segment>): set<ValidationError>
    decreases s, 1
  {
    if forall t | t in SchemaTypes(s) :: !TypeMatches(t, v) then {Expected(path, SchemaTypes(s))}
    else match s
      case Typed(_) => {}
      case ObjectOf(properties, required) => MissingErrors(required, v.fields, path)
          + PropertyErrors(s, v, path, properties.Keys)
      case ArrayOf(items) => ItemErrors(s, v, path, |v.items|)
  }

  ghost function MissingErrors(required: set<string>, fields: map<string, Value>,
                               path: seq<Segment>): set<ValidationError> {
    set k | k in required && k !in fields :: Missing(path + [Field(k)])
  }

  /** The errors of the named properties. */
  ghost function PropertyErrors(s: Schema, v: Value, path: seq<Segment>, names: set<string>): set<ValidationError>
    requires s.ObjectOf? && v.Object?
    decreases s, 0
  {
    set k, e | k in names && k in s.properties && k in v.fields &&
               e in ErrorSet(s.properties[k], v.fields[k], path + [Field(k)]) :: e
  }

  /** The errors of the first items. */
  ghost function ItemErrors(s: Schema, v: Value, path: seq<Segment>, count: nat): set<ValidationError>
    requires s.ArrayOf? && v.Array? && count <= |v.items|
    decreases s, 0
  {
    set i, e | 0 <= i < count && e in ErrorSet(s.items, v.items[i], path + [Index(i)]) :: e
  }

  /** Validation reaches an array whose schema has no item schema: an error, not a report. */
  ghost predicate Invalid(s: Schema, v: Value) {
    match s
    case Typed(types) => v.Array? && TArray in types
    case ObjectOf(properties, _) => v.Object? && exists k | k in properties && k in v.fields ::
        Invalid(properties[k], v.fields[k])
    case ArrayOf(items) => v.Array? && exists i | 0 <= i < |v.items| :: Invalid(items, v.items[i])
  }

  /** The walk never goes deeper than validation is willing to. */
  ghost predicate Visits(s: Schema, v: Value, depth: nat) {
    && depth <= MAX_DEPTH
    && match s
       case Typed(_) => true
       case ObjectOf(properties, _) =>
         v.Object? ==> forall k | k in properties && k in v.fields :: Visits(properties[k], v.fields[k], depth + 1)
       case ArrayOf(items) => v.Array? ==> forall x | x in v.items :: Visits(items, x, depth + 1)
  }

  /** Conformance is the absence of both kinds of trouble, at any path. */
  lemma {:induction false} ConformsIffNoErrors(s: Schema, v: Value, path: seq<Segment>)
    ensures Conforms(s, v) <==> ErrorSet(s, v, path) == {} && !Invalid(s, v)
    decreases s
  {
    match s
    case Typed(_) =>
    case ObjectOf(properties, required) =>
      if v.Object? {
        assert TypeMatches(TObject, v) && TObject in SchemaTypes(s);
        forall k | k in properties && k in v.fields
          ensures Conforms(properties[k], v.fields[k]) <==>
                  ErrorSet(properties[k], v.fields[k], path + [Field(k)]) == {} && !Invalid(properties[k], v.fields[k])
          ensures ErrorSet(properties[k], v.fields[k], path + [Field(k)]) <= ErrorSet(s, v, path)
        {
          ConformsIffNoErrors(properties[k], v.fields[k], path + [Field(k)]);
        }
        forall k | k in required && k !in v.fields ensures Missing(path + [Field(k)]) in ErrorSet(s, v, path) {}
      }
    case ArrayOf(items) =>
      if v.Array? {
        assert TypeMatches(TArray, v) && TArray in SchemaTypes(s);
        forall i | 0 <= i < |v.items|
          ensures Conforms(items, v.items[i]) <==>
                  ErrorSet(items, v.items[i], path + [Index(i)]) == {} && !Invalid(items, v.items[i])
          ensures ErrorSet(items, v.items[i], path + [Index(i)]) <= ErrorSet(s, v, path)
        {
          ConformsIffNoErrors(items, v.items[i], path + [Index(i)]);
        }
      }
  }

  // ---- What is reported, and where ----

  datatype Found<T> = Found(there: T) | Nowhere

  /** What a place holds. */
  function ValueAtPlace(v: Value, place: seq<Segment>): Found<Value>
    decreases |place|
  {
    if place == [] then Found(v)
    else match place[0]
         case Field(k) => if v.Object? && k in v.fields then ValueAtPlace(v.fields[k], place[1..]) else Nowhere
         case Index(i) => if v.Array? && i < |v.items| then ValueAtPlace(v.items[i], place[1..]) else Nowhere
  }

  /** The schema that applies at a place. */
  function SchemaAtPlace(s: Schema, place: seq<Segment>): Found<Schema>
    decreases |place|
  {
    if place == [] then Found(s)
    else match place[0]
         case Field(k) =>
           if s.ObjectOf? && k in s.properties then SchemaAtPlace(s.properties[k], place[1..]) else Nowhere
         case Index(_) => if s.ArrayOf? then SchemaAtPlace(s.items, place[1..]) else Nowhere
  }

  /** The value at the place has none of the types its schema asks for. */
  ghost predicate IsMismatch(s: Schema, v: Value, place: seq<Segment>, types: set<TypeName>) {
    match (SchemaAtPlace(s, place), ValueAtPlace(v, place))
    case (Found(schema), Found(value)) =>
      types == SchemaTypes(schema) && forall t | t in types :: !TypeMatches(t, value)
    case _ => false
  }

  /** The place names a required field that its object does not have. */
  ghost predicate IsMissing(s: Schema, v: Value, place: seq<Segment>) {
    place != [] && place[|place| - 1].Field? &&
    match (SchemaAtPlace(s, place[..|place| - 1]), ValueAtPlace(v, place[..|place| - 1]))
    case (Found(ObjectOf(_, required)), Found(Object(fields))) =>
      place[|place| - 1].name in required && place[|place| - 1].name !in fields
    case _ => false
  }

  /** Everything reported below a path is at a place below it. */
  lemma {:induction false} ErrorsAreBelow(s: Schema, v: Value, path: seq<Segment>, e: ValidationError)
    requires e in ErrorSet(s, v, path)
    ensures path <= e.path
    ensures e.Missing? ==> path != e.path
    decreases s
  {
    match s
    case Typed(_) =>
    case ObjectOf(properties, required) =>
      if v.Object? && e in PropertyErrors(s, v, path, properties.Keys) {
        var k :| k in properties && k in v.fields && e in ErrorSet(properties[k], v.fields[k], path + [Field(k)]);
        ErrorsAreBelow(properties[k], v.fields[k], path + [Field(k)], e);
      }
    case ArrayOf(items) =>
      if v.Array? && e in ItemErrors(s, v, path, |v.items|) {
        var i :| 0 <= i < |v.items| && e in ErrorSet(items, v.items[i], path + [Index(i)]);
        ErrorsAreBelow(items, v.items[i], path + [Index(i)], e);
      }
  }

  /** An error below one step is reported exactly where that step leads to it. */
  lemma ErrorsBelowStep(s: Schema, v: Value, path: seq<Segment>, place: seq<Segment>, e: ValidationError)
    requires place != [] && e.path == path + place && !(e.Missing? && |place| == 1)
    ensures e in ErrorSet(s, v, path) <==>
            match (SchemaAtPlace(s, place[..1]), ValueAtPlace(v, place[..1]))
            case (Found(schema), Found(value)) => e in ErrorSet(schema, value, path + place[..1])
            case _ => false
  {
    assert place[..1] == [place[0]] && place[..1][1..] == [];
    assert e.path[|path|] == place[0];
    if s.ObjectOf? && v.Object? {
      assert TypeMatches(TObject, v) && TObject in SchemaTypes(s);
      forall k | k in s.properties && k in v.fields && e in ErrorSet(s.properties[k], v.fields[k], path + [Field(k)])
        ensures place[0] == Field(k)
      {
        ErrorsAreBelow(s.properties[k], v.fields[k], path + [Field(k)], e);
      }
      assert e !in MissingErrors(s.required, v.fields, path);
    } else if s.ArrayOf? && v.Array? {
      assert TypeMatches(TArray, v) && TArray in SchemaTypes(s);
      forall i | 0 <= i < |v.items| && e in ErrorSet(s.items, v.items[i], path + [Index(i)])
        ensures place[0] == Index(i)
      {
        ErrorsAreBelow(s.items, v.items[i], path + [Index(i)], e);
      }
    }
  }

  lemma PlaceStep(s: Schema, v: Value, place: seq<Segment>)
    requires place != []
    ensures SchemaAtPlace(s, place[..1]).Nowhere? ==> SchemaAtPlace(s, place).Nowhere?
    ensures SchemaAtPlace(s, place[..1]).Found? ==>
              SchemaAtPlace(s, place) == SchemaAtPlace(SchemaAtPlace(s, place[..1]).there, place[1..])
    ensures ValueAtPlace(v, place[..1]).Nowhere? ==> ValueAtPlace(v, place).Nowhere?
    ensures ValueAtPlace(v, place[..1]).Found? ==>
              ValueAtPlace(v, place) == ValueAtPlace(ValueAtPlace(v, place[..1]).there, place[1..])
  {
    assert place[..1] == [place[0]] && place[..1][1..] == [];
    match place[0] {
      case Field(k) =>
        if s.ObjectOf? && k in s.properties { assert SchemaAtPlace(s.properties[k], place[..1][1..]).Found?; }
        if v.Object? && k in v.fields { assert ValueAtPlace(v.fields[k], place[..1][1..]).Found?; }
      case Index(i) =>
        if s.ArrayOf? { assert SchemaAtPlace(s.items, place[..1][1..]).Found?; }
        if v.Array? && i < |v.items| { assert ValueAtPlace(v.items[i], place[..1][1..]).Found?; }
    }
  }

  /** A type is complained of exactly at the places where value and schema are found and do not match. */
  lemma {:induction false} MismatchesAreReported(s: Schema, v: Value, path: seq<Segment>, place: seq<Segment>,
                                                 types: set<TypeName>)
    ensures Expected(path + place, types) in ErrorSet(s, v, path) <==> IsMismatch(s, v, place, types)
    decreases |place|
  {
    var e := Expected(path + place, types);
    if place == [] {
      NothingBelowIsHere(s, v, path, e);
    } else {
      ErrorsBelowStep(s, v, path, place, e);
      PlaceStep(s, v, place);
      match (SchemaAtPlace(s, place[..1]), ValueAtPlace(v, place[..1]))
      case (Found(schema), Found(value)) =>
        assert path + place[..1] + place[1..] == path + place;
        MismatchesAreReported(schema, value, path + place[..1], place[1..], types);
      case _ =>
    }
  }

  lemma NothingBelowIsHere(s: Schema, v: Value, path: seq<Segment>, e: ValidationError)
    requires e.Expected? && e.path == path + []
    ensures e in ErrorSet(s, v, path) <==> IsMismatch(s, v, [], e.types)
  {
    assert path + [] == path;
    if s.ObjectOf? && v.Object? {
      assert TypeMatches(TObject, v) && TObject in SchemaTypes(s);
      forall k | k in s.properties && k in v.fields && e in ErrorSet(s.properties[k], v.fields[k], path + [Field(k)])
        ensures false
      {
        ErrorsAreBelow(s.properties[k], v.fields[k], path + [Field(k)], e);
      }
    } else if s.ArrayOf? && v.Array? {
      assert TypeMatches(TArray, v) && TArray in SchemaTypes(s);
      forall i | 0 <= i < |v.items| && e in ErrorSet(s.items, v.items[i], path + [Index(i)]) ensures false {
        ErrorsAreBelow(s.items, v.items[i], path + [Index(i)], e);
      }
    }
  }

  /** A field is reported missing exactly where an object lacks what its schema requires, under its own name. */
  lemma {:induction false} MissingAreReported(s: Schema, v: Value, path: seq<Segment>, place: seq<Segment>)
    ensures Missing(path + place) in ErrorSet(s, v, path) <==> IsMissing(s, v, place)
    decreases |place|
  {
    var e := Missing(path + place);
    if place == [] {
      if e in ErrorSet(s, v, path) { ErrorsAreBelow(s, v, path, e); }
    } else if |place| == 1 {
      MissingHere(s, v, path, place[0]);
      assert place == [place[0]];
    } else {
      ErrorsBelowStep(s, v, path, place, e);
      PlaceStep(s, v, place[..|place| - 1]);
      assert place[..|place| - 1][..1] == place[..1] && place[1..][..|place| - 2] == place[..|place| - 1][1..];
      match (SchemaAtPlace(s, place[..1]), ValueAtPlace(v, place[..1]))
      case (Found(schema), Found(value)) =>
        assert path + place[..1] + place[1..] == path + place;
        MissingAreReported(schema, value, path + place[..1], place[1..]);
      case _ =>
    }
  }

  lemma MissingHere(s: Schema, v: Value, path: seq<Segment>, here: Segment)
    ensures Missing(path + [here]) in ErrorSet(s, v, path) <==> IsMissing(s, v, [here])
  {
    var e := Missing(path + [here]);
    assert e.path[|path|] == here;
    if s.ObjectOf? && v.Object? {
      assert TypeMatches(TObject, v) && TObject in SchemaTypes(s);
      forall k | k in s.properties && k in v.fields && e in ErrorSet(s.properties[k], v.fields[k], path + [Field(k)])
        ensures false
      {
        ErrorsAreBelow(s.properties[k], v.fields[k], path + [Field(k)], e);
      }
      forall k | k in s.required && k !in v.fields ensures Missing(path + [Field(k)]).path[|path|] == Field(k) {}
    } else if s.ArrayOf? && v.Array? {
      forall i | 0 <= i < |v.items| && e in ErrorSet(s.items, v.items[i], path + [Index(i)]) ensures false {
        ErrorsAreBelow(s.items, v.items[i], path + [Index(i)], e);
      }
    }
  }

  ghost function ToSet(errors: seq<ValidationError>): set<ValidationError> {
    set e | e in errors
  }

  /**
   The walk as it is carried out. It appends to the list it was given, visits properties in no
   particular order, and stops early on too many reports, too much depth, or an array
   it has no item schema for.
   */
  method ValidateAt(s: Schema, v: Value, path: seq<Segment>, depth: nat, before: seq<ValidationError>)
    returns (outcome: Outcome, result: seq<ValidationError>)
    ensures before <= result
    ensures ToSet(result[|before|..]) <= ErrorSet(s, v, path)
    ensures outcome.Done? ==> ToSet(result[|before|..]) == ErrorSet(s, v, path) && !Invalid(s, v)
    ensures outcome.Done? ==> Visits(s, v, depth) && |before| <= MAX_PATHS
    ensures outcome.InvalidSchema? ==> Invalid(s, v)
    ensures outcome.TooComplex? ==> |result| > MAX_PATHS || !Visits(s, v, depth)
    decreases s, 1
  {
    result := before;
    if depth > MAX_DEPTH || |result| > MAX_PATHS {
      return TooComplex, result;
    }
    if forall t | t in SchemaTypes(s) :: !TypeMatches(t, v) {
      result := result + [Expected(path, SchemaTypes(s))];
      return Done, result;
    }
    match s
    case Typed(types) =>
      outcome := if v.Array? && TArray in types then InvalidSchema else Done;
    case ObjectOf(_, required) =>
      result := ReportMissing(required, v.fields, path, result);
      ghost var earlier := result;
      outcome, result := ValidateProperties(s, v, path, depth, result);
      Appended(before, earlier, result);
    case ArrayOf(_) =>
      outcome, result := ValidateItems(s, v, path, depth, result);
  }

  method ValidateProperties(s: Schema, v: Value, path: seq<Segment>, depth: nat, before: seq<ValidationError>)
    returns (outcome: Outcome, result: seq<ValidationError>)
    requires s.ObjectOf? && v.Object? && depth <= MAX_DEPTH
    ensures before <= result
    ensures ToSet(result[|before|..]) <= PropertyErrors(s, v, path, s.properties.Keys)
    ensures outcome.Done? ==>
              ToSet(result[|before|..]) == PropertyErrors(s, v, path, s.properties.Keys) && !Invalid(s, v)
    ensures outcome.Done? ==> Visits(s, v, depth)
    ensures outcome.InvalidSchema? ==> Invalid(s, v)
    ensures outcome.TooComplex? ==> |result| > MAX_PATHS || !Visits(s, v, depth)
    decreases s, 0
  {
    outcome, result := Done, before;
    var remaining := s.properties.Keys;
    while remaining != {}
      invariant remaining <= s.properties.Keys
      invariant before <= result
      invariant ToSet(result[|before|..]) == PropertyErrors(s, v, path, s.properties.Keys - remaining)
      invariant forall k | k in s.properties && k !in remaining && k in v.fields ::
                  !Invalid(s.properties[k], v.fields[k]) && Visits(s.properties[k], v.fields[k], depth + 1)
      invariant outcome.Done?
    {
      var name :| name in remaining;
      remaining := remaining - {name};
      if name in v.fields {
        ghost var earlier := result;
        outcome, result := ValidateAt(s.properties[name], v.fields[name], path + [Field(name)], depth + 1, result);
        Appended(before, earlier, result);
        if !outcome.Done? {
          return;
        }
      }
    }
    assert s.properties.Keys - remaining == s.properties.Keys;
  }

  method ValidateItems(s: Schema, v: Value, path: seq<Segment>, depth: nat, before: seq<ValidationError>)
    returns (outcome: Outcome, result: seq<ValidationError>)
    requires s.ArrayOf? && v.Array? && depth <= MAX_DEPTH
    ensures before <= result
    ensures ToSet(result[|before|..]) <= ItemErrors(s, v, path, |v.items|)
    ensures outcome.Done? ==> ToSet(result[|before|..]) == ItemErrors(s, v, path, |v.items|) && !Invalid(s, v)
    ensures outcome.Done? ==> Visits(s, v, depth)
    ensures outcome.InvalidSchema? ==> Invalid(s, v)
    ensures outcome.TooComplex? ==> |result| > MAX_PATHS || !Visits(s, v, depth)
    decreases s, 0
  {
    outcome, result := Done, before;
    for index := 0 to |v.items|
      invariant before <= result
      invariant ToSet(result[|before|..]) == ItemErrors(s, v, path, index)
      invariant forall i | 0 <= i < index :: !Invalid(s.items, v.items[i]) && Visits(s.items, v.items[i], depth + 1)
      invariant outcome.Done?
    {
      ghost var earlier := result;
      assert v.items[index] in v.items;
      outcome, result := ValidateAt(s.items, v.items[index], path + [Index(index)], depth + 1, result);
      Appended(before, earlier, result);
      if !outcome.Done? {
        return;
      }
    }
  }

  method ReportMissing(required: set<string>, fields: map<string, Value>, path: seq<Segment>,
                       before: seq<ValidationError>)
    returns (result: seq<ValidationError>)
    ensures before <= result
    ensures ToSet(result[|before|..]) == MissingErrors(required, fields, path)
  {
    result := before;
    var remaining := required;
    while remaining != {}
      invariant remaining <= required
      invariant before <= result
      invariant ToSet(result[|before|..]) == MissingErrors(required - remaining, fields, path)
    {
      var name :| name in remaining;
      remaining := remaining - {name};
      if name !in fields {
        ghost var earlier := result;
        result := result + [Missing(path + [Field(name)])];
        Appended(before, earlier, result);
        assert ToSet(result[|earlier|..]) == {Missing(path + [Field(name)])};
      }
    }
  }

  lemma Appended(before: seq<ValidationError>, earlier: seq<ValidationError>, later: seq<ValidationError>)
    requires before <= earlier <= later
    ensures ToSet(later[|before|..]) == ToSet(earlier[|before|..]) + ToSet(later[|earlier|..])
  {
    assert later[|before|..] == earlier[|before|..] + later[|earlier|..];
  }

  lemma EmptyReport(errors: seq<ValidationError>)
    ensures ToSet(errors) == {} <==> errors == []
  {
    if errors != [] { assert errors[0] in ToSet(errors); }
  }

  lemma ErrorsAreAtPlaces(s: Schema, v: Value)
    ensures forall place, types :: Expected(place, types) in ErrorSet(s, v, []) <==> IsMismatch(s, v, place, types)
    ensures forall place :: Missing(place) in ErrorSet(s, v, []) <==> IsMissing(s, v, place)
  {
    forall place, types ensures Expected(place, types) in ErrorSet(s, v, []) <==> IsMismatch(s, v, place, types) {
      MismatchesAreReported(s, v, [], place, types);
      assert [] + place == place;
    }
    forall place ensures Missing(place) in ErrorSet(s, v, []) <==> IsMissing(s, v, place) {
      MissingAreReported(s, v, [], place);
      assert [] + place == place;
    }
  }

  /**
   `Validate`, from the root. Data is accepted, with no error and an empty report,
   exactly when it conforms and the walk stays within the depth bound.
   */
  method Validate(s: Schema, v: Value) returns (outcome: Outcome, errors: seq<ValidationError>)
    ensures outcome.Done? && errors == [] ==> Conforms(s, v)
    ensures Conforms(s, v) && Visits(s, v, 0) ==> outcome.Done? && errors == []
    ensures !Visits(s, v, 0) ==> !outcome.Done?
    ensures forall place, types | Expected(place, types) in errors :: IsMismatch(s, v, place, types)
    ensures forall place | Missing(place) in errors :: IsMissing(s, v, place)
    ensures outcome.Done? ==>
              && (forall place, types :: Expected(place, types) in errors <==> IsMismatch(s, v, place, types))
              && (forall place :: Missing(place) in errors <==> IsMissing(s, v, place))
  {
    outcome, errors := ValidateAt(s, v, [], 0, []);
    assert errors[0..] == errors;
    ErrorsAreAtPlaces(s, v);
    ConformsIffNoErrors(s, v, []);
    EmptyReport(errors);
  }
}
