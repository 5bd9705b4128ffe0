/**
 The generated schema subset: its meaning, and the join of two schemas.

 A schema that carries only a "type" is `Typed`. The source writes one name as a
 string and several as a sorted list without repetitions, so a set of names says the same.
 */
module ContractSchema {
  import opened Json

  datatype Schema =
    | Typed(types: set<TypeName>)
    | ObjectOf(properties: map<string, Schema>, required: set<string>)
    | ArrayOf(items: Schema)

  function SchemaTypes(s: Schema): set<TypeName> {
    match s
    case Typed(types) => types
    case ObjectOf(_, _) => {TObject}
    case ArrayOf(_) => {TArray}
  }

  /** No bare `object` or `array`, no empty type list, and nothing required that is not a property. */
  ghost predicate WellFormed(s: Schema) {
    match s
    case Typed(types) => types != {} && types != {TObject} && types != {TArray}
    case ObjectOf(properties, required) =>
      required <= properties.Keys && forall k | k in properties :: WellFormed(properties[k])
    case ArrayOf(items) => WellFormed(items)
  }

  /**
   What it means for data to conform. Additional properties are allowed. An array
   that meets a union naming "array" has no item schema to be checked with, and is
   never accepted.
   */
  ghost predicate Conforms(s: Schema, v: Value) {
    match s
    case Typed(types) =>
      && (exists t | t in types :: TypeMatches(t, v))
      && !(v.Array? && TArray in types)
    case ObjectOf(properties, required) =>
      && v.Object?
      && (forall k | k in required :: k in v.fields)
      && (forall k | k in properties && k in v.fields :: Conforms(properties[k], v.fields[k]))
    case ArrayOf(items) =>
      && v.Array?
      && (forall x | x in v.items :: Conforms(items, x))
  }

  /** No union of types mentions "array" anywhere in the schema. */
  predicate NoArrayUnion(s: Schema) {
    match s
    case Typed(types) => TArray !in types
    case ObjectOf(properties, _) => forall k | k in properties :: NoArrayUnion(properties[k])
    case ArrayOf(items) => NoArrayUnion(items)
  }

  /** The schema that describes the values of both sides. Objects join key by key. */
  function Join(l: Schema, r: Schema): Schema {
    match (l, r)
    case (ObjectOf(lp, required), ObjectOf(rp, _)) =>
      ObjectOf(map k | k in lp.Keys + rp.Keys ::
                 if k in lp && k in rp then Join(lp[k], rp[k]) else if k in lp then lp[k] else rp[k],
               required)
    case (ArrayOf(li), ArrayOf(ri)) => ArrayOf(Join(li, ri))
    case _ => Typed(SchemaTypes(l) + SchemaTypes(r))
  }

  lemma {:induction false} JoinWellFormed(l: Schema, r: Schema)
    requires WellFormed(l) && WellFormed(r)
    ensures WellFormed(Join(l, r))
  {
    match (l, r)
    case (ObjectOf(lp, _), ObjectOf(rp, _)) =>
      forall k | k in lp && k in rp ensures WellFormed(Join(lp[k], rp[k])) {
        JoinWellFormed(lp[k], rp[k]);
      }
    case (ArrayOf(li), ArrayOf(ri)) => JoinWellFormed(li, ri);
    case _ =>
      var types := SchemaTypes(l) + SchemaTypes(r);
      assert SchemaTypes(l) <= types && SchemaTypes(r) <= types;
      assert SchemaTypes(l) != {} && SchemaTypes(r) != {};
  }

  /** The merge as it is carried out: it compares the type lists, then updates the left property map in place. */
  method MergeSchemas(left: Schema, right: Schema) returns (merged: Schema)
    requires WellFormed(left) && WellFormed(right)
    ensures merged == Join(left, right)
    decreases left
  {
    var leftTypes, rightTypes := SchemaTypes(left), SchemaTypes(right);
    if |leftTypes| != 1 || |rightTypes| != 1 || leftTypes != rightTypes {
      merged := Typed(leftTypes + rightTypes);
      return;
    }
    match left
    case ObjectOf(leftProperties, required) =>
      SameTypesSameShape(left, right);
      var properties, remaining := leftProperties, right.properties.Keys;
      while remaining != {}
        invariant remaining <= right.properties.Keys
        invariant properties.Keys == leftProperties.Keys + (right.properties.Keys - remaining)
        invariant forall k | k in leftProperties && k in remaining :: properties[k] == leftProperties[k]
        invariant forall k | k in properties && k !in remaining ::
                    properties[k] == Join(left, right).properties[k]
      {
        var name :| name in remaining;
        if name in properties {
          var property := MergeSchemas(leftProperties[name], right.properties[name]);
          properties := properties[name := property];
        } else {
          properties := properties[name := right.properties[name]];
        }
        remaining := remaining - {name};
      }
      merged := ObjectOf(properties, required);
      assert properties == Join(left, right).properties;
    case ArrayOf(items) =>
      SameTypesSameShape(left, right);
      var item := MergeSchemas(items, right.items);
      merged := ArrayOf(item);
    case Typed(types) =>
      SameTypesSameShape(left, right);
      merged := left;
  }

  lemma SameTypesSameShape(l: Schema, r: Schema)
    requires WellFormed(l) && WellFormed(r) && SchemaTypes(l) == SchemaTypes(r)
    ensures l.ObjectOf? <==> r.ObjectOf?
    ensures l.ArrayOf? <==> r.ArrayOf?
    ensures l.Typed? ==> Join(l, r) == l
  {
    if l.Typed? { assert l.types + l.types == l.types; }
    assert TObject in {TObject} && TObject !in {TArray};
  }
}
