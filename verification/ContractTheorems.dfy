/** What inference guarantees: one schema per set of items, safe accesses, self-satisfaction, stability. */
module ContractTheorems {
  import opened Json
  import opened ContractSchema
  import opened ContractTree
  import opened ContractValidate
  import opened ContractInference

  // ---- Inference meets the reference definition ----

  ghost function SetOf(items: seq<Value>): set<Value> {
    set x | x in items
  }

  lemma {:induction false} InferenceDescribes(v: Value, n: Node, depth: nat)
    requires depth <= MAX_DEPTH + 1 && SchemaFor(v, n, depth).Inferred?
    ensures Describes(SchemaFor(v, n, depth).schema, {v}, n)
    decreases MAX_DEPTH + 1 - depth, 0, 1
  {
    var s := SchemaFor(v, n, depth).schema;
    if n.isArray {
      FoldDescribes(ArrayNodeItems(v), ItemNode(n), depth + 1);
      assert AllArrayNodeItems({v}) == SetOf(ArrayNodeItems(v));
    } else if n.children != map[] || v.Object? {
      ObjectInferenceDescribes(v, n, depth);
    } else if v.Array? {
      assert AllFreeItems({v}) == SetOf(FreeItems(v));
      if v.items != [] {
        FoldDescribes(v.items, n, depth + 1);
      } else {
        assert SetOf(FreeItems(v)) == {String("")};
        assert AllTypes({String("")}) == {TString};
        assert Describes(Typed({TString}), {String("")}, n);
      }
    } else {
      assert AllTypes({v}) == {TypeOf(v)};
    }
  }

  /** One unfolding of the object branch. */
  lemma ObjectBranch(v: Value, n: Node, depth: nat)
    requires depth <= MAX_DEPTH && !n.isArray && (n.children != map[] || v.Object?)
    requires SchemaFor(v, n, depth).Inferred?
    ensures var s := SchemaFor(v, n, depth).schema;
            && s.ObjectOf? && s.required == RequiredOf(n) && s.properties.Keys == KeysOf(v, n)
            && forall k | k in KeysOf(v, n) ::
                 SchemaFor(ValueAt(v, n, k), ChildAt(n, k), depth + 1) == Inferred(s.properties[k])
  {
    assert SchemaFor(v, n, depth) == ObjectSchema(v, n, depth);
  }

  lemma {:induction false} ObjectInferenceDescribes(v: Value, n: Node, depth: nat)
    requires depth <= MAX_DEPTH && !n.isArray && (n.children != map[] || v.Object?)
    requires SchemaFor(v, n, depth).Inferred?
    ensures Describes(SchemaFor(v, n, depth).schema, {v}, n)
    decreases MAX_DEPTH + 1 - depth, 0, 0
  {
    var s := SchemaFor(v, n, depth).schema;
    ObjectBranch(v, n, depth);
    assert AllKeys({v}, n) == KeysOf(v, n);
    forall k | k in s.properties
      ensures Describes(s.properties[k], AllValuesAt({v}, n, k), ChildAt(n, k))
    {
      InferenceDescribes(ValueAt(v, n, k), ChildAt(n, k), depth + 1);
      assert AllValuesAt({v}, n, k) == {ValueAt(v, n, k)};
    }
  }

  lemma {:induction false} FoldDescribes(items: seq<Value>, n: Node, depth: nat)
    requires items != [] && depth <= MAX_DEPTH + 1 && FoldItems(items, n, depth).Inferred?
    ensures Describes(FoldItems(items, n, depth).schema, SetOf(items), n)
    decreases MAX_DEPTH + 1 - depth, |items|
  {
    var last, earlier := items[|items| - 1], items[..|items| - 1];
    InferenceDescribes(last, n, depth);
    if |items| == 1 {
      assert SetOf(items) == {last};
    } else {
      FoldDescribes(earlier, n, depth);
      assert earlier[0] in SetOf(earlier);
      JoinDescribesUnion(FoldItems(earlier, n, depth).schema, SetOf(earlier), SchemaFor(last, n, depth).schema,
                         {last}, n);
      assert SetOf(items) == SetOf(earlier) + {last};
    }
  }

  lemma {:induction false} FoldSucceeds(items: seq<Value>, n: Node, depth: nat)
    requires items != [] && depth <= MAX_DEPTH + 1
    ensures FoldItems(items, n, depth).Inferred? <==> forall x | x in items :: SchemaFor(x, n, depth).Inferred?
    decreases |items|
  {
    var last, earlier := items[|items| - 1], items[..|items| - 1];
    AllButLast(items, n, depth);
    if earlier != [] {
      FoldSucceeds(earlier, n, depth);
      assert FoldItems(items, n, depth).Inferred? <==>
             FoldItems(earlier, n, depth).Inferred? && SchemaFor(last, n, depth).Inferred?;
    }
  }

  lemma AllButLast(items: seq<Value>, n: Node, depth: nat)
    requires items != [] && depth <= MAX_DEPTH + 1
    ensures (forall x | x in items :: SchemaFor(x, n, depth).Inferred?) <==>
            (forall x | x in items[..|items| - 1] :: SchemaFor(x, n, depth).Inferred?) &&
            SchemaFor(items[|items| - 1], n, depth).Inferred?
  {
    assert items == items[..|items| - 1] + [items[|items| - 1]];
  }

  // ---- When inference succeeds ----

  /** Inference comes to a value at this place: a field that the value or the tree has, or an item. */
  ghost predicate Reaches(v: Value, n: Node, place: seq<PlaceStep>)
    decreases |place|
  {
    if place == [] then true
    else match place[0]
         case IntoField(k) =>
           && !n.isArray && (n.children != map[] || v.Object?) && (k in n.children || (v.Object? && k in v.fields))
           && Reaches(if v.Object? && k in v.fields then v.fields[k] else DefaultFor(ChildAt(n, k)), ChildAt(n, k),
                      place[1..])
         case ToItems =>
           if n.isArray then
             if v.Array? && v.items != [] then exists x :: x in v.items && Reaches(x, ItemNode(n), place[1..])
             else Reaches(EmptyObject, ItemNode(n), place[1..])
           else n.children == map[] && v.Array? && exists x :: x in v.items && Reaches(x, n, place[1..])
  }

  lemma {:induction false} TooDeepThere(v: Value, n: Node, depth: nat, place: seq<PlaceStep>)
    requires depth <= MAX_DEPTH + 1 && Reaches(v, n, place) && depth + |place| > MAX_DEPTH
    ensures SchemaFor(v, n, depth).TooDeep?
    decreases |place|
  {
    if place != [] && depth <= MAX_DEPTH {
      match place[0]
      case IntoField(k) =>
        TooDeepThere(ValueAt(v, n, k), ChildAt(n, k), depth + 1, place[1..]);
        assert SchemaFor(v, n, depth) == ObjectSchema(v, n, depth);
        assert k in KeysOf(v, n);
      case ToItems =>
        var items, m := if n.isArray then ArrayNodeItems(v) else v.items, if n.isArray then ItemNode(n) else n;
        var x :| x in items && Reaches(x, m, place[1..]);
        TooDeepThere(x, m, depth + 1, place[1..]);
        FoldSucceeds(items, m, depth + 1);
    }
  }

  lemma {:induction false} WhereTooDeep(v: Value, n: Node, depth: nat) returns (place: seq<PlaceStep>)
    requires depth <= MAX_DEPTH + 1 && SchemaFor(v, n, depth).TooDeep?
    ensures Reaches(v, n, place) && depth + |place| > MAX_DEPTH
    decreases MAX_DEPTH + 1 - depth
  {
    place := [];
    if depth <= MAX_DEPTH {
      var rest;
      if !n.isArray && (n.children != map[] || v.Object?) {
        assert SchemaFor(v, n, depth) == ObjectSchema(v, n, depth);
        var k :| k in KeysOf(v, n) && SchemaFor(ValueAt(v, n, k), ChildAt(n, k), depth + 1).TooDeep?;
        rest := WhereTooDeep(ValueAt(v, n, k), ChildAt(n, k), depth + 1);
        place := [IntoField(k)] + rest;
      } else {
        var items, m := if n.isArray then ArrayNodeItems(v) else v.items, if n.isArray then ItemNode(n) else n;
        FoldSucceeds(items, m, depth + 1);
        var x :| x in items && SchemaFor(x, m, depth + 1).TooDeep?;
        rest := WhereTooDeep(x, m, depth + 1);
        place := [ToItems] + rest;
      }
      assert place[1..] == rest;
    }
  }

  /** Inference gives up exactly on samples that are nested too deep, wherever that is. */
  lemma InferredExactlyWhen(v: Value, n: Node, depth: nat)
    requires depth <= MAX_DEPTH + 1
    ensures SchemaFor(v, n, depth).Inferred? <==>
              forall place | Reaches(v, n, place) :: depth + |place| <= MAX_DEPTH
  {
    if SchemaFor(v, n, depth).TooDeep? {
      var place := WhereTooDeep(v, n, depth);
    } else {
      forall place | Reaches(v, n, place) ensures depth + |place| <= MAX_DEPTH {
        if depth + |place| > MAX_DEPTH { TooDeepThere(v, n, depth, place); }
      }
    }
  }

  // ---- The algebra of joins ----

  /** A schema that some sample values of this node give rise to. */
  ghost predicate GeneratedAt(s: Schema, n: Node) {
    exists values: set<Value> :: values != {} && Describes(s, values, n)
  }

  lemma JoinIdempotent(s: Schema, n: Node)
    requires GeneratedAt(s, n)
    ensures Join(s, s) == s
  {
    var a: set<Value> :| a != {} && Describes(s, a, n);
    JoinDescribesUnion(s, a, s, a, n);
    assert a + a == a;
    DescribedOnce(Join(s, s), s, a, n);
  }

  lemma JoinCommutes(s: Schema, t: Schema, n: Node)
    requires GeneratedAt(s, n) && GeneratedAt(t, n)
    ensures Join(s, t) == Join(t, s) && GeneratedAt(Join(s, t), n)
  {
    var a: set<Value> :| a != {} && Describes(s, a, n);
    var b: set<Value> :| b != {} && Describes(t, b, n);
    JoinDescribesUnion(s, a, t, b, n);
    JoinDescribesUnion(t, b, s, a, n);
    assert a + b == b + a && a + b != {};
    DescribedOnce(Join(s, t), Join(t, s), a + b, n);
  }

  lemma JoinAssociates(s: Schema, t: Schema, u: Schema, n: Node)
    requires GeneratedAt(s, n) && GeneratedAt(t, n) && GeneratedAt(u, n)
    ensures Join(Join(s, t), u) == Join(s, Join(t, u))
  {
    var a: set<Value> :| a != {} && Describes(s, a, n);
    var b: set<Value> :| b != {} && Describes(t, b, n);
    var c: set<Value> :| c != {} && Describes(u, c, n);
    JoinDescribesUnion(s, a, t, b, n);
    JoinDescribesUnion(t, b, u, c, n);
    assert a + b != {} && b + c != {};
    JoinDescribesUnion(Join(s, t), a + b, u, c, n);
    JoinDescribesUnion(s, a, Join(t, u), b + c, n);
    assert (a + b) + c == a + (b + c);
    DescribedOnce(Join(Join(s, t), u), Join(s, Join(t, u)), a + b + c, n);
  }

  /** The item schema depends on which items occur, not on their order or repetition. */
  lemma ItemSchemaIgnoresOrder(xs: seq<Value>, ys: seq<Value>, n: Node, depth: nat)
    requires xs != [] && ys != [] && depth <= MAX_DEPTH + 1
    requires SetOf(xs) == SetOf(ys)
    ensures FoldItems(xs, n, depth) == FoldItems(ys, n, depth)
  {
    FoldSucceeds(xs, n, depth);
    FoldSucceeds(ys, n, depth);
    assert forall x :: x in xs <==> x in SetOf(xs);
    assert forall y :: y in ys <==> y in SetOf(ys);
    if FoldItems(xs, n, depth).Inferred? {
      FoldDescribes(xs, n, depth);
      FoldDescribes(ys, n, depth);
      DescribedOnce(FoldItems(xs, n, depth).schema, FoldItems(ys, n, depth).schema, SetOf(xs), n);
    }
  }

  // ---- Access safety ----

  /** Whatever conforms to a schema inferred at a node has the shape the node demands, joins included. */
  lemma {:induction false} ConformingIsSafe(s: Schema, values: set<Value>, n: Node, d: Value)
    requires Describes(s, values, n) && Conforms(s, d)
    ensures Safe(d, n)
    decreases s
  {
    if n.isArray {
      forall x | x in d.items ensures SafeItem(x, n) {
        ConformingIsSafe(s.items, AllArrayNodeItems(values), ItemNode(n), x);
        SameItemDemands(x, n);
      }
    } else if n.children != map[] {
      forall k | k in n.children && k in d.fields ensures Safe(d.fields[k], n.children[k]) {
        ConformingIsSafe(s.properties[k], AllValuesAt(values, n, k), ChildAt(n, k), d.fields[k]);
      }
      forall k | k in n.children && n.children[k].required ensures k in d.fields {
        assert k in RequiredOf(n);
      }
    }
  }

  lemma SameItemDemands(x: Value, n: Node)
    ensures Safe(x, ItemNode(n)) <==> SafeItem(x, n)
  {
    assert ItemNode(n).children == n.children;
  }

  /**
   Data accepted against the inferred schema can be followed along every recorded
   path, whatever the sample was: nothing mandatory is missing and every iterated
   value is an array.
   */
  lemma AccessSafety(paths: seq<PathInfo>, sample: map<string, Value>, d: Value, p: PathInfo)
    requires p in paths
    requires SchemaFor(Object(CompleteFields(sample, BuildTree(paths))), BuildTree(paths), 0).Inferred?
    requires Conforms(SchemaFor(Object(CompleteFields(sample, BuildTree(paths))), BuildTree(paths), 0).schema, d)
    ensures Follows(d, BuildTree(paths), p.parts)
  {
    var root := BuildTree(paths);
    var completed := Object(CompleteFields(sample, root));
    InferenceDescribes(completed, root, 0);
    ConformingIsSafe(SchemaFor(completed, root, 0).schema, {completed}, root, d);
    RootIsPlain(paths);
    TreeCoversEveryPath(paths, p);
    SafeFollows(d, root, p.parts, p.arrayAt);
  }

  // ---- Self-satisfaction ----

  lemma {:induction false} SafeValuesConform(s: Schema, values: set<Value>, n: Node, v: Value)
    requires Describes(s, values, n) && v in values && Safe(v, n) && NoArrayUnion(s)
    ensures Conforms(s, v)
    decreases s
  {
    if n.isArray {
      forall x | x in v.items ensures Conforms(s.items, x) {
        assert x in ArrayNodeItems(v);
        SameItemDemands(x, n);
        SafeValuesConform(s.items, AllArrayNodeItems(values), ItemNode(n), x);
      }
    } else if ObjectsAt(values, n) {
      forall k | k in s.properties && k in v.fields ensures Conforms(s.properties[k], v.fields[k]) {
        assert ValueAt(v, n, k) == v.fields[k] && k in KeysOf(v, n);
        SafeValuesConform(s.properties[k], AllValuesAt(values, n, k), ChildAt(n, k), v.fields[k]);
      }
    } else if forall w | w in values :: w.Array? {
      forall x | x in v.items ensures Conforms(s.items, x) {
        assert x in FreeItems(v);
        SafeValuesConform(s.items, AllFreeItems(values), n, x);
      }
    } else {
      assert TypeOf(v) in AllTypes(values) && TypeMatches(TypeOf(v), v);
    }
  }

  /** What completion and inference put in place of a missing value; none of it is an array at a plain node. */
  ghost predicate Placeholder(v: Value, n: Node) {
    if n.isArray then v == Array([EmptyObject])
    else v == EmptyObject || (n.children == map[] && v == String(""))
  }

  /** If all genuine values conform, no union in the schema mentions "array": such a union stems from an array value. */
  lemma {:induction false} ConformingValuesAvoidArrayUnions(s: Schema, values: set<Value>, n: Node)
    requires Describes(s, values, n)
    requires forall v | v in values :: Conforms(s, v) || Placeholder(v, n)
    ensures NoArrayUnion(s)
    decreases s, 1
  {
    if n.isArray {
      var items := AllArrayNodeItems(values);
      forall x | x in items ensures Conforms(s.items, x) || Placeholder(x, ItemNode(n)) {
        var v :| v in values && x in ArrayNodeItems(v);
      }
      ConformingValuesAvoidArrayUnions(s.items, items, ItemNode(n));
    } else if ObjectsAt(values, n) {
      forall k | k in s.properties ensures NoArrayUnion(s.properties[k]) {
        ConformingPropertiesAvoidArrayUnions(s, values, n, k);
      }
    } else if forall v | v in values :: v.Array? {
      var items := AllFreeItems(values);
      forall x | x in items ensures Conforms(s.items, x) || Placeholder(x, n) {
        var v :| v in values && x in FreeItems(v);
        assert Conforms(s, v);
      }
      ConformingValuesAvoidArrayUnions(s.items, items, n);
    } else {
      forall v | v in values ensures TypeOf(v) != TArray {}
    }
  }

  lemma {:induction false} ConformingPropertiesAvoidArrayUnions(s: Schema, values: set<Value>, n: Node, k: string)
    requires s.ObjectOf? && k in s.properties && Describes(s, values, n) && !n.isArray && ObjectsAt(values, n)
    requires forall v | v in values :: Conforms(s, v) || Placeholder(v, n)
    ensures NoArrayUnion(s.properties[k])
    decreases s, 0
  {
    forall x | x in AllValuesAt(values, n, k) ensures Conforms(s.properties[k], x) || Placeholder(x, ChildAt(n, k)) {
      var v :| v in values && k in KeysOf(v, n) && x == ValueAt(v, n, k);
      PropertyConforms(s, v, n, k);
    }
    ConformingValuesAvoidArrayUnions(s.properties[k], AllValuesAt(values, n, k), ChildAt(n, k));
  }

  lemma PropertyConforms(s: Schema, v: Value, n: Node, k: string)
    requires s.ObjectOf? && k in s.properties && !n.isArray && k in KeysOf(v, n)
    requires Conforms(s, v) || Placeholder(v, n)
    ensures Conforms(s.properties[k], ValueAt(v, n, k)) || Placeholder(ValueAt(v, n, k), ChildAt(n, k))
  {}

  /**
   A schema is free of unions that mention "array" exactly when the values it describes never mix
   arrays with others.
   */
  lemma {:induction false} UnionsComeFromMixing(s: Schema, values: set<Value>, n: Node)
    requires Describes(s, values, n)
    ensures NoArrayUnion(s) <==> NeverMixes(values, n)
    decreases s, 1
  {
    if n.isArray {
      UnionsComeFromMixing(s.items, AllArrayNodeItems(values), ItemNode(n));
      ItemPlaces(values, AllArrayNodeItems(values), n, ItemNode(n));
    } else if ObjectsAt(values, n) {
      forall k | k in s.properties
        ensures NoArrayUnion(s.properties[k]) <==> NeverMixes(AllValuesAt(values, n, k), ChildAt(n, k))
      {
        UnionsComeFromMixing(s.properties[k], AllValuesAt(values, n, k), ChildAt(n, k));
      }
      FieldPlaces(values, n);
    } else if forall v | v in values :: v.Array? {
      UnionsComeFromMixing(s.items, AllFreeItems(values), n);
      ItemPlaces(values, AllFreeItems(values), n, n);
    } else {
      MixedTypes(values, n);
    }
  }

  lemma ItemPlaces(values: set<Value>, items: set<Value>, n: Node, m: Node)
    requires n.isArray ==> items == AllArrayNodeItems(values) && m == ItemNode(n)
    requires !n.isArray ==> !ObjectsAt(values, n) && items == AllFreeItems(values) && m == n
    requires !n.isArray ==> forall v | v in values :: v.Array?
    ensures NeverMixes(values, n) <==> NeverMixes(items, m)
  {
    forall place ensures MixesAt(values, n, [ToItems] + place) <==> MixesAt(items, m, place) {
      assert ([ToItems] + place)[1..] == place;
    }
    forall place | MixesAt(values, n, place) ensures place != [] && MixesAt(items, m, place[1..]) {}
  }

  lemma FieldPlaces(values: set<Value>, n: Node)
    requires !n.isArray && ObjectsAt(values, n)
    ensures NeverMixes(values, n) <==>
              forall k | k in AllKeys(values, n) :: NeverMixes(AllValuesAt(values, n, k), ChildAt(n, k))
  {
    forall k, place | k in AllKeys(values, n)
      ensures MixesAt(values, n, [IntoField(k)] + place) <==> MixesAt(AllValuesAt(values, n, k), ChildAt(n, k), place)
    {
      assert ([IntoField(k)] + place)[1..] == place;
    }
    forall place: seq<PlaceStep> | MixesAt(values, n, place)
      ensures place != [] && place[0].IntoField? && place[0].name in AllKeys(values, n)
      ensures MixesAt(AllValuesAt(values, n, place[0].name), ChildAt(n, place[0].name), place[1..])
    {}
  }

  lemma MixedTypes(values: set<Value>, n: Node)
    requires !n.isArray && !ObjectsAt(values, n) && exists v :: v in values && !v.Array?
    ensures TArray in AllTypes(values) <==> !NeverMixes(values, n)
  {
    if TArray in AllTypes(values) {
      var v :| v in values && TypeOf(v) == TArray;
      assert MixesAt(values, n, []);
    }
    forall place | MixesAt(values, n, place) ensures place == [] {}
  }

  /**
   A sample satisfies its own schema exactly when it has the shape of the tree and nowhere
   in it, over all items of its arrays, does an array meet something else where the tree
   expects neither.
   */
  lemma SelfSatisfaction(v: Value, n: Node, depth: nat)
    requires depth <= MAX_DEPTH + 1 && SchemaFor(v, n, depth).Inferred?
    ensures Conforms(SchemaFor(v, n, depth).schema, v) <==> Safe(v, n) && NeverMixes({v}, n)
  {
    var s := SchemaFor(v, n, depth).schema;
    InferenceDescribes(v, n, depth);
    UnionsComeFromMixing(s, {v}, n);
    if Conforms(s, v) {
      ConformingIsSafe(s, {v}, n, v);
      ConformingValuesAvoidArrayUnions(s, {v}, n);
    } else if Safe(v, n) && NoArrayUnion(s) {
      SafeValuesConform(s, {v}, n, v);
    }
  }

  // ---- Stability under completion ----

  lemma {:induction false} FoldCongruence(xs: seq<Value>, ys: seq<Value>, n: Node, depth: nat)
    requires xs != [] && |xs| == |ys| && depth <= MAX_DEPTH + 1
    requires forall i | 0 <= i < |xs| :: SchemaFor(xs[i], n, depth) == SchemaFor(ys[i], n, depth)
    ensures FoldItems(xs, n, depth) == FoldItems(ys, n, depth)
    decreases |xs|
  {
    if |xs| > 1 {
      FoldCongruence(xs[..|xs| - 1], ys[..|ys| - 1], n, depth);
    }
  }

  /** Completing an object does not change the schema inferred from it, nor whether one is. */
  lemma {:induction false} CompletionKeepsSchema(fields: map<string, Value>, n: Node, depth: nat)
    requires depth <= MAX_DEPTH + 1
    ensures SchemaFor(Object(CompleteFields(fields, n)), ItemNode(n), depth) ==
              SchemaFor(Object(fields), ItemNode(n), depth)
    decreases n, 1
  {
    var before, after, m := Object(fields), Object(CompleteFields(fields, n)), ItemNode(n);
    if n.children == map[] {
      NoChildrenNoChange(fields, n);
    } else if depth <= MAX_DEPTH {
      assert KeysOf(before, m) == KeysOf(after, m);
      forall k | k in KeysOf(before, m)
        ensures SchemaFor(ValueAt(before, m, k), ChildAt(m, k), depth + 1) ==
                SchemaFor(ValueAt(after, m, k), ChildAt(m, k), depth + 1)
      {
        CompletedFieldKeepsSchema(fields, n, k, depth + 1);
      }
      SameFieldsSameSchema(before, after, m, depth);
    }
  }

  lemma {:induction false} CompletedFieldKeepsSchema(fields: map<string, Value>, n: Node, k: string, depth: nat)
    requires depth <= MAX_DEPTH + 1 && k in fields.Keys + n.children.Keys
    ensures SchemaFor(ValueAt(Object(fields), ItemNode(n), k), ChildAt(ItemNode(n), k), depth) ==
              SchemaFor(ValueAt(Object(CompleteFields(fields, n)), ItemNode(n), k), ChildAt(ItemNode(n), k), depth)
    decreases n, 0
  {
    CompletedField(fields, n, k);
    if k in n.children {
      CompletionKeepsDefaultSchema(n.children[k], depth);
      if k in fields { CompletionKeepsFieldSchema(fields[k], n.children[k], depth); }
    }
  }

  lemma CompletedField(fields: map<string, Value>, n: Node, k: string)
    requires k in fields.Keys + n.children.Keys
    ensures ValueAt(Object(CompleteFields(fields, n)), ItemNode(n), k)
            == if k !in n.children then fields[k]
               else if k in fields then CompleteExisting(fields[k], n.children[k]) else CompleteMissing(n.children[k])
    ensures ValueAt(Object(fields), ItemNode(n), k) == if k in fields then fields[k] else DefaultFor(ChildAt(n, k))
  {}

  lemma SameFieldsSameSchema(v: Value, w: Value, n: Node, depth: nat)
    requires depth <= MAX_DEPTH && !n.isArray && v.Object? && w.Object?
    requires KeysOf(v, n) == KeysOf(w, n)
    requires forall k | k in KeysOf(v, n) ::
               SchemaFor(ValueAt(v, n, k), ChildAt(n, k), depth + 1) ==
                   SchemaFor(ValueAt(w, n, k), ChildAt(n, k), depth + 1)
    ensures SchemaFor(v, n, depth) == SchemaFor(w, n, depth)
  {
    if ObjectSchema(v, n, depth).Inferred? {
      assert ObjectSchema(v, n, depth).schema.properties == ObjectSchema(w, n, depth).schema.properties;
    }
  }

  lemma {:induction false} CompletionKeepsFieldSchema(v: Value, n: Node, depth: nat)
    requires depth <= MAX_DEPTH + 1
    ensures SchemaFor(CompleteExisting(v, n), n, depth) == SchemaFor(v, n, depth)
    decreases n, 3
  {
    if n.isArray && v.Array? && depth <= MAX_DEPTH {
      if v.items == [] {
        EmptyArrayIsDefault(n, depth);
        CompletionKeepsDefaultSchema(n, depth);
      } else if v.items[0].Object? {
        CompletionKeepsSchema(v.items[0].fields, n, depth + 1);
        ReplaceFirst(v.items, Object(CompleteFields(v.items[0].fields, n)), n, depth);
      }
    } else if !n.isArray && n.children != map[] && v.Object? {
      CompletionKeepsSchema(v.fields, n, depth);
      assert ItemNode(n) == n;
    }
  }

  lemma EmptyArrayIsDefault(n: Node, depth: nat)
    requires n.isArray && depth <= MAX_DEPTH + 1
    ensures SchemaFor(Array([]), n, depth) == SchemaFor(DefaultFor(n), n, depth)
    ensures CompleteExisting(Array([]), n) == CompleteMissing(n)
  {
    assert ArrayNodeItems(Array([])) == ArrayNodeItems(DefaultFor(n));
  }

  lemma ReplaceFirst(items: seq<Value>, first: Value, n: Node, depth: nat)
    requires items != [] && n.isArray && depth <= MAX_DEPTH
    requires SchemaFor(first, ItemNode(n), depth + 1) == SchemaFor(items[0], ItemNode(n), depth + 1)
    ensures SchemaFor(Array(items[0 := first]), n, depth) == SchemaFor(Array(items), n, depth)
  {
    FoldCongruence(items, items[0 := first], ItemNode(n), depth + 1);
  }

  lemma {:induction false} CompletionKeepsDefaultSchema(n: Node, depth: nat)
    requires depth <= MAX_DEPTH + 1
    ensures SchemaFor(CompleteMissing(n), n, depth) == SchemaFor(DefaultFor(n), n, depth)
    decreases n, 2
  {
    if n.isArray && depth <= MAX_DEPTH {
      CompletionKeepsSchema(map[], n, depth + 1);
      ReplaceFirst([EmptyObject], Object(CompleteFields(map[], n)), n, depth);
      assert [EmptyObject][0 := Object(CompleteFields(map[], n))] == CompleteMissing(n).items;
    } else if !n.isArray && n.children != map[] {
      CompletionKeepsSchema(map[], n, depth);
      assert ItemNode(n) == n;
    }
  }

  /** Analysing the completed sample again changes neither the sample nor the schema. */
  lemma AnalysisIsStable(paths: seq<PathInfo>, sample: map<string, Value>)
    ensures var root := BuildTree(paths);
            var completed := CompleteFields(sample, root);
            CompleteFields(completed, root) == completed &&
            SchemaFor(Object(completed), root, 0) == SchemaFor(Object(sample), root, 0)
  {
    var root := BuildTree(paths);
    RootIsPlain(paths);
    CompletionIdempotent(sample, root);
    CompletionKeepsSchema(sample, root, 0);
    assert ItemNode(root) == root;
  }

  // ---- Validating a sample against its own schema ----

  ghost function AllItems(values: set<Value>, n: Node): set<Value> {
    if n.isArray then AllArrayNodeItems(values) else AllFreeItems(values)
  }

  /** One unfolding at an array: what is known of its items. */
  lemma ItemBranch(s: Schema, values: set<Value>, n: Node, v: Value, x: Value, depth: nat)
    requires Describes(s, values, n) && v in values && v.Array? && x in v.items && s.ArrayOf?
    requires depth <= MAX_DEPTH && SchemaFor(v, n, depth).Inferred?
    ensures Describes(s.items, AllItems(values, n), ItemNode(n))
    ensures x in AllItems(values, n)
    ensures SchemaFor(x, ItemNode(n), depth + 1).Inferred?
  {
    assert x in ArrayNodeItems(v) && x in FreeItems(v);
    FoldSucceeds(v.items, ItemNode(n), depth + 1);
    assert !n.isArray ==> ItemNode(n) == n;
  }

  /** One unfolding at an object: what is known of its fields. */
  lemma FieldBranch(s: Schema, values: set<Value>, n: Node, v: Value, k: string, depth: nat)
    requires Describes(s, values, n) && v in values && v.Object? && s.ObjectOf?
    requires k in s.properties && k in v.fields
    requires depth <= MAX_DEPTH && SchemaFor(v, n, depth).Inferred?
    ensures Describes(s.properties[k], AllValuesAt(values, n, k), ChildAt(n, k))
    ensures v.fields[k] in AllValuesAt(values, n, k)
    ensures SchemaFor(v.fields[k], ChildAt(n, k), depth + 1).Inferred?
  {
    assert ValueAt(v, n, k) == v.fields[k] && k in KeysOf(v, n);
    ObjectBranch(v, n, depth);
  }

  /** Inference has already been everywhere that validation goes in a sample. */
  lemma {:induction false} SampleIsVisited(s: Schema, values: set<Value>, n: Node, v: Value, depth: nat)
    requires Describes(s, values, n) && v in values
    requires depth <= MAX_DEPTH + 1 && SchemaFor(v, n, depth).Inferred?
    ensures Visits(s, v, depth)
    decreases s, 1
  {
    if v.Array? && s.ArrayOf? {
      ItemsAreVisited(s, values, n, v, depth);
    } else if v.Object? && s.ObjectOf? {
      FieldsAreVisited(s, values, n, v, depth);
    }
  }

  lemma {:induction false} ItemsAreVisited(s: Schema, values: set<Value>, n: Node, v: Value, depth: nat)
    requires Describes(s, values, n) && v in values && v.Array? && s.ArrayOf?
    requires depth <= MAX_DEPTH && SchemaFor(v, n, depth).Inferred?
    ensures forall x | x in v.items :: Visits(s.items, x, depth + 1)
    decreases s, 0
  {
    forall x | x in v.items ensures Visits(s.items, x, depth + 1) {
      ItemBranch(s, values, n, v, x, depth);
      SampleIsVisited(s.items, AllItems(values, n), ItemNode(n), x, depth + 1);
    }
  }

  lemma {:induction false} FieldsAreVisited(s: Schema, values: set<Value>, n: Node, v: Value, depth: nat)
    requires Describes(s, values, n) && v in values && v.Object? && s.ObjectOf?
    requires depth <= MAX_DEPTH && SchemaFor(v, n, depth).Inferred?
    ensures forall k | k in s.properties && k in v.fields :: Visits(s.properties[k], v.fields[k], depth + 1)
    decreases s, 0
  {
    forall k | k in s.properties && k in v.fields ensures Visits(s.properties[k], v.fields[k], depth + 1) {
      FieldBranch(s, values, n, v, k, depth);
      SampleIsVisited(s.properties[k], AllValuesAt(values, n, k), ChildAt(n, k), v.fields[k], depth + 1);
    }
  }

  lemma {:induction false} InferredIsWellFormed(v: Value, n: Node, depth: nat)
    requires depth <= MAX_DEPTH + 1 && SchemaFor(v, n, depth).Inferred?
    ensures WellFormed(SchemaFor(v, n, depth).schema)
    decreases MAX_DEPTH + 1 - depth, 0
  {
    if n.isArray {
      FoldIsWellFormed(ArrayNodeItems(v), ItemNode(n), depth + 1);
    } else if n.children != map[] || v.Object? {
      ObjectBranch(v, n, depth);
      var s := SchemaFor(v, n, depth).schema;
      forall k | k in s.properties ensures WellFormed(s.properties[k]) {
        InferredIsWellFormed(ValueAt(v, n, k), ChildAt(n, k), depth + 1);
      }
    } else if v.Array? && v.items != [] {
      FoldIsWellFormed(v.items, n, depth + 1);
    }
  }

  lemma {:induction false} FoldIsWellFormed(items: seq<Value>, n: Node, depth: nat)
    requires items != [] && depth <= MAX_DEPTH + 1 && FoldItems(items, n, depth).Inferred?
    ensures WellFormed(FoldItems(items, n, depth).schema)
    decreases MAX_DEPTH + 1 - depth, |items|
  {
    var last, earlier := items[|items| - 1], items[..|items| - 1];
    InferredIsWellFormed(last, n, depth);
    if |items| > 1 {
      FoldIsWellFormed(earlier, n, depth);
      JoinWellFormed(FoldItems(earlier, n, depth).schema, SchemaFor(last, n, depth).schema);
    }
  }
}
