/**
 Schema inference, against a reference definition that knows nothing of joins or
 of order: `Describes(s, values, n)` says that `s` is the schema of a whole set of
 values met at one tree node.
 */
module ContractInference {
  import opened Json
  import opened ContractSchema
  import opened ContractTree
  import opened ContractValidate

  datatype Inferred = Inferred(schema: Schema) | TooDeep

  // ---- Inference by recursion ----

  function ArrayNodeItems(v: Value): seq<Value> {
    if v.Array? && v.items != [] then v.items else [EmptyObject]
  }

  function FieldsOf(v: Value): map<string, Value> {
    if v.Object? then v.fields else map[]
  }

  function KeysOf(v: Value, n: Node): set<string> {
    FieldsOf(v).Keys + n.children.Keys
  }

  /** The value inferred for a field; a field the tree expects and the value lacks gets a default. */
  function ValueAt(v: Value, n: Node, k: string): Value {
    if k in FieldsOf(v) then FieldsOf(v)[k] else DefaultFor(ChildAt(n, k))
  }

  function RequiredOf(n: Node): set<string> {
    set k | k in n.children && n.children[k].required
  }

  /** `depth` is the engine's own guard, and the reason the recursion ends. */
  function SchemaFor(v: Value, n: Node, depth: nat): Inferred
    requires depth <= MAX_DEPTH + 1
    decreases MAX_DEPTH + 1 - depth, 1
  {
    if depth > MAX_DEPTH then TooDeep
    else if n.isArray then AsArray(FoldItems(ArrayNodeItems(v), ItemNode(n), depth + 1))
    else if n.children != map[] || v.Object? then ObjectSchema(v, n, depth)
    else if v.Array? then
      if v.items == [] then Inferred(ArrayOf(Typed({TString})))
      else AsArray(FoldItems(v.items, n, depth + 1))
    else Inferred(Typed({TypeOf(v)}))
  }

  /** Every key of the value and of the tree becomes a property. */
  function ObjectSchema(v: Value, n: Node, depth: nat): Inferred
    requires depth <= MAX_DEPTH
    decreases MAX_DEPTH + 1 - depth, 0
  {
    if forall k | k in KeysOf(v, n) :: SchemaFor(ValueAt(v, n, k), ChildAt(n, k), depth + 1).Inferred? then
      Inferred(ObjectOf(map k | k in KeysOf(v, n) :: SchemaFor(ValueAt(v, n, k), ChildAt(n, k), depth + 1).schema,
                        RequiredOf(n)))
    else TooDeep
  }

  function AsArray(items: Inferred): Inferred {
    if items.Inferred? then Inferred(ArrayOf(items.schema)) else TooDeep
  }

  /** The item schemas joined from left to right. */
  function FoldItems(items: seq<Value>, n: Node, depth: nat): Inferred
    requires items != [] && depth <= MAX_DEPTH + 1
    decreases MAX_DEPTH + 1 - depth, |items| + 1
  {
    var last := SchemaFor(items[|items| - 1], n, depth);
    if |items| == 1 then last
    else
      var earlier := FoldItems(items[..|items| - 1], n, depth);
      if earlier.Inferred? && last.Inferred? then Inferred(Join(earlier.schema, last.schema)) else TooDeep
  }

  // ---- The reference definition ----

  ghost function AllArrayNodeItems(values: set<Value>): set<Value> {
    set v, x | v in values && x in ArrayNodeItems(v) :: x
  }

  /** An empty array at a node without children counts as holding one empty string. */
  function FreeItems(v: Value): seq<Value> {
    if v.Array? && v.items != [] then v.items else [String("")]
  }

  ghost function AllFreeItems(values: set<Value>): set<Value> {
    set v, x | v in values && x in FreeItems(v) :: x
  }

  ghost function AllKeys(values: set<Value>, n: Node): set<string> {
    n.children.Keys + set v, k | v in values && k in FieldsOf(v) :: k
  }

  ghost function AllValuesAt(values: set<Value>, n: Node, k: string): set<Value> {
    set v | v in values && k in KeysOf(v, n) :: ValueAt(v, n, k)
  }

  ghost function AllTypes(values: set<Value>): set<TypeName> {
    set v | v in values :: TypeOf(v)
  }

  /** The values of a node are all described as objects: the tree says so, or they all are. */
  ghost predicate ObjectsAt(values: set<Value>, n: Node) {
    n.children != map[] || forall v | v in values :: v.Object?
  }

  ghost predicate Describes(s: Schema, values: set<Value>, n: Node)
    decreases s, 1
  {
    if n.isArray then
      s.ArrayOf? && Describes(s.items, AllArrayNodeItems(values), ItemNode(n))
    else if ObjectsAt(values, n) then
      DescribesObjects(s, values, n)
    else if forall v | v in values :: v.Array? then
      s.ArrayOf? && Describes(s.items, AllFreeItems(values), n)
    else
      s == Typed(AllTypes(values))
  }

  ghost predicate DescribesObjects(s: Schema, values: set<Value>, n: Node)
    decreases s, 0
  {
    && s.ObjectOf?
    && s.required == RequiredOf(n)
    && s.properties.Keys == AllKeys(values, n)
    && (forall k | k in s.properties :: Describes(s.properties[k], AllValuesAt(values, n, k), ChildAt(n, k)))
  }

  // ---- Places ----

  /** One step from the values of a node to the values under them: into a field, or to the items. */
  datatype PlaceStep = IntoField(name: string) | ToItems

  /** An array meets something else, at a node that says nothing of what it expects. */
  ghost predicate IsMixed(values: set<Value>, n: Node) {
    && !n.isArray && n.children == map[]
    && (exists v :: v in values && v.Array?) && (exists v :: v in values && !v.Array?)
  }

  /** The values found at a place, seen from the values of a node, are mixed. */
  ghost predicate MixesAt(values: set<Value>, n: Node, place: seq<PlaceStep>)
    decreases |place|
  {
    if place == [] then IsMixed(values, n)
    else match place[0]
      case IntoField(k) =>
        !n.isArray && ObjectsAt(values, n) && k in AllKeys(values, n)
        && MixesAt(AllValuesAt(values, n, k), ChildAt(n, k), place[1..])
      case ToItems =>
        if n.isArray then MixesAt(AllArrayNodeItems(values), ItemNode(n), place[1..])
        else
          && !ObjectsAt(values, n)
          && (forall v | v in values :: v.Array?)
          && MixesAt(AllFreeItems(values), n, place[1..])
  }

  /** Nowhere in the values does an array meet something else where the tree expects neither. */
  ghost predicate NeverMixes(values: set<Value>, n: Node) {
    forall place :: !MixesAt(values, n, place)
  }

  /** A set of values has at most one schema. */
  lemma {:induction false} DescribedOnce(s: Schema, t: Schema, values: set<Value>, n: Node)
    requires Describes(s, values, n) && Describes(t, values, n)
    ensures s == t
    decreases s
  {
    if n.isArray {
      DescribedOnce(s.items, t.items, AllArrayNodeItems(values), ItemNode(n));
    } else if ObjectsAt(values, n) {
      forall k | k in s.properties ensures s.properties[k] == t.properties[k] {
        DescribedOnce(s.properties[k], t.properties[k], AllValuesAt(values, n, k), ChildAt(n, k));
      }
      assert s.properties == t.properties;
    } else if forall v | v in values :: v.Array? {
      DescribedOnce(s.items, t.items, AllFreeItems(values), n);
    }
  }

  lemma ItemsExist(values: set<Value>)
    requires values != {}
    ensures AllArrayNodeItems(values) != {} && AllFreeItems(values) != {}
  {
    var v :| v in values;
    var x, y := ArrayNodeItems(v)[0], FreeItems(v)[0];
    assert x in ArrayNodeItems(v) && y in FreeItems(v);
    assert x in AllArrayNodeItems(values) && y in AllFreeItems(values);
  }

  lemma ValuesExist(values: set<Value>, n: Node, k: string)
    requires values != {}
    ensures k in AllKeys(values, n) <==> AllValuesAt(values, n, k) != {}
  {
    if k in AllKeys(values, n) {
      var w :| w in values && k in KeysOf(w, n);
      assert ValueAt(w, n, k) in AllValuesAt(values, n, k);
    }
  }

  /** The types a described schema accepts at the top are the types of the values, at a node that demands nothing. */
  lemma FreeTypes(s: Schema, values: set<Value>, n: Node)
    requires Describes(s, values, n) && values != {} && !n.isArray && n.children == map[]
    ensures SchemaTypes(s) == AllTypes(values)
  {
    var v :| v in values;
    assert TypeOf(v) in AllTypes(values);
    if (forall v | v in values :: v.Object?) || (forall v | v in values :: v.Array?) {
      assert AllTypes(values) == {TypeOf(v)};
    }
  }

  lemma UnionOfItems(a: set<Value>, b: set<Value>)
    ensures AllArrayNodeItems(a + b) == AllArrayNodeItems(a) + AllArrayNodeItems(b)
    ensures AllFreeItems(a + b) == AllFreeItems(a) + AllFreeItems(b)
  {}

  lemma UnionOfKeys(a: set<Value>, b: set<Value>, n: Node)
    ensures AllKeys(a + b, n) == AllKeys(a, n) + AllKeys(b, n)
  {}

  lemma UnionOfValues(a: set<Value>, b: set<Value>, n: Node, k: string)
    ensures AllValuesAt(a + b, n, k) == AllValuesAt(a, n, k) + AllValuesAt(b, n, k)
  {}

  lemma UnionOfTypes(a: set<Value>, b: set<Value>)
    ensures AllTypes(a + b) == AllTypes(a) + AllTypes(b)
  {}

  /** Joining schemas is taking the union of the values they describe. */
  lemma {:induction false} JoinDescribesUnion(s: Schema, a: set<Value>, t: Schema, b: set<Value>, n: Node)
    requires a != {} && b != {}
    requires Describes(s, a, n) && Describes(t, b, n)
    ensures Describes(Join(s, t), a + b, n)
    decreases s, 2
  {
    UnionOfItems(a, b);
    ItemsExist(a);
    ItemsExist(b);
    if n.isArray {
      JoinDescribesUnion(s.items, AllArrayNodeItems(a), t.items, AllArrayNodeItems(b), ItemNode(n));
    } else if ObjectsAt(a, n) && ObjectsAt(b, n) {
      JoinObjects(s, a, t, b, n);
    } else if (forall v | v in a :: v.Array?) && (forall v | v in b :: v.Array?) {
      NotBothShapes(a, n);
      NotBothShapes(b, n);
      NotBothShapes(a + b, n);
      JoinDescribesUnion(s.items, AllFreeItems(a), t.items, AllFreeItems(b), n);
    } else {
      JoinMixed(s, a, t, b, n);
    }
  }

  lemma NotBothShapes(values: set<Value>, n: Node)
    requires values != {} && n.children == map[] && forall v | v in values :: v.Array?
    ensures !ObjectsAt(values, n)
  {
    var v :| v in values;
    assert !v.Object?;
  }

  lemma JoinMixed(s: Schema, a: set<Value>, t: Schema, b: set<Value>, n: Node)
    requires a != {} && b != {} && !n.isArray
    requires Describes(s, a, n) && Describes(t, b, n)
    requires !(ObjectsAt(a, n) && ObjectsAt(b, n))
    requires !((forall v | v in a :: v.Array?) && (forall v | v in b :: v.Array?))
    ensures Describes(Join(s, t), a + b, n)
  {
    UnionOfTypes(a, b);
    FreeTypes(s, a, n);
    FreeTypes(t, b, n);
    var u := a + b;
    var v :| v in u && !v.Array?;
    var w :| w in u && !w.Object?;
    assert !ObjectsAt(u, n);
    assert TypeOf(v) in AllTypes(u) && TypeOf(w) in AllTypes(u);
    assert !(s.ObjectOf? && t.ObjectOf?) && !(s.ArrayOf? && t.ArrayOf?);
  }

  lemma {:induction false} JoinObjects(s: Schema, a: set<Value>, t: Schema, b: set<Value>, n: Node)
    requires a != {} && b != {} && !n.isArray
    requires ObjectsAt(a, n) && ObjectsAt(b, n)
    requires Describes(s, a, n) && Describes(t, b, n)
    ensures Describes(Join(s, t), a + b, n)
    decreases s, 1
  {
    UnionOfKeys(a, b, n);
    var joined, u := Join(s, t), a + b;
    assert joined.properties.Keys == AllKeys(u, n);
    forall k | k in joined.properties
      ensures Describes(joined.properties[k], AllValuesAt(u, n, k), ChildAt(n, k))
    {
      JoinProperty(s, a, t, b, n, k);
    }
    assert ObjectsAt(u, n);
  }

  lemma {:induction false} JoinProperty(s: Schema, a: set<Value>, t: Schema, b: set<Value>, n: Node, k: string)
    requires a != {} && b != {} && s.ObjectOf? && t.ObjectOf?
    requires k in s.properties <==> k in AllKeys(a, n)
    requires k in t.properties <==> k in AllKeys(b, n)
    requires k in s.properties ==> Describes(s.properties[k], AllValuesAt(a, n, k), ChildAt(n, k))
    requires k in t.properties ==> Describes(t.properties[k], AllValuesAt(b, n, k), ChildAt(n, k))
    requires k in Join(s, t).properties
    ensures Describes(Join(s, t).properties[k], AllValuesAt(a + b, n, k), ChildAt(n, k))
    decreases s, 0
  {
    UnionOfValues(a, b, n, k);
    ValuesExist(a, n, k);
    ValuesExist(b, n, k);
    var va, vb := AllValuesAt(a, n, k), AllValuesAt(b, n, k);
    if k in s.properties && k in t.properties {
      JoinDescribesUnion(s.properties[k], va, t.properties[k], vb, ChildAt(n, k));
    } else if k in s.properties {
      assert va + vb == va;
    } else {
      assert va + vb == vb;
    }
  }
}
