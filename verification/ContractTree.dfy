/**
 The tree of recorded accesses: what it demands of data, how paths are folded into
 it, and how a sample is completed to it.
 */
module ContractTree {
  import opened Json

  datatype Node = Node(children: map<string, Node>, required: bool, isArray: bool, leaf: bool)

  datatype PathPart = PathPart(name: string, optional: bool)

  /** One access: the names followed, and after how many of them the value is iterated (0 for never). */
  datatype PathInfo = PathInfo(parts: seq<PathPart>, arrayAt: nat, leaf: bool)

  const EmptyNode := Node(map[], false, false, false)

  function ChildAt(n: Node, name: string): Node {
    if name in n.children then n.children[name] else EmptyNode
  }

  /** The node that the items of an array at `n` are inferred and completed for. */
  function ItemNode(n: Node): Node {
    n.(isArray := false)
  }

  // ---- What the tree demands of data ----

  /** Arrays at array nodes, objects at inner nodes, required fields in every one of them. */
  ghost predicate Safe(v: Value, n: Node)
    decreases n, 1
  {
    if n.isArray then v.Array? && forall x | x in v.items :: SafeItem(x, n) else SafeItem(v, n)
  }

  ghost predicate SafeItem(v: Value, n: Node)
    decreases n, 0
  {
    n.children != map[] ==>
      && v.Object?
      && (forall k | k in n.children :: n.children[k].required ==> k in v.fields)
      && (forall k | k in n.children && k in v.fields :: Safe(v.fields[k], n.children[k]))
  }

  /** Following `parts` from a value at an inner node never meets a missing field or a wrong shape. */
  ghost predicate Follows(v: Value, n: Node, parts: seq<PathPart>)
    decreases |parts|
  {
    parts != [] ==>
      && v.Object?
      && (parts[0].optional || parts[0].name in v.fields)
      && (parts[0].name in v.fields ==>
            var child, value := ChildAt(n, parts[0].name), v.fields[parts[0].name];
            if child.isArray then value.Array? && forall x | x in value.items :: Follows(x, child, parts[1..])
            else Follows(value, child, parts[1..]))
  }

  // ---- Folding paths into the tree ----

  /** `at` counts down to the array position: the part reached when it is 1 is iterated. */
  function Insert(n: Node, parts: seq<PathPart>, at: int, leaf: bool): Node
    decreases |parts|
  {
    if parts == [] then n.(leaf := n.leaf || leaf)
    else
      var part := parts[0];
      var child := ChildAt(n, part.name);
      var marked := child.(isArray := child.isArray || at == 1, required := child.required || !part.optional);
      n.(children := n.children[part.name := Insert(marked, parts[1..], at - 1, leaf)])
  }

  function BuildTree(paths: seq<PathInfo>): Node {
    if paths == [] then EmptyNode
    else
      var last := paths[|paths| - 1];
      Insert(BuildTree(paths[..|paths| - 1]), last.parts, last.arrayAt, last.leaf)
  }

  /** The tree records an access: its names in turn, its mandatory parts required, its array position flagged. */
  ghost predicate Covers(n: Node, parts: seq<PathPart>, at: int)
    decreases |parts|
  {
    parts != [] ==>
      && parts[0].name in n.children
      && (!parts[0].optional ==> n.children[parts[0].name].required)
      && (at == 1 ==> n.children[parts[0].name].isArray)
      && Covers(n.children[parts[0].name], parts[1..], at - 1)
  }

  ghost predicate Grows(a: Node, b: Node) {
    && (a.required ==> b.required)
    && (a.isArray ==> b.isArray)
    && (forall k | k in a.children :: k in b.children && Grows(a.children[k], b.children[k]))
  }

  lemma {:induction false} GrowsReflexive(n: Node)
    ensures Grows(n, n)
  {
    forall k | k in n.children ensures Grows(n.children[k], n.children[k]) { GrowsReflexive(n.children[k]); }
  }

  lemma {:induction false} InsertGrows(n: Node, parts: seq<PathPart>, at: int, leaf: bool)
    ensures Grows(n, Insert(n, parts, at, leaf))
    decreases |parts|
  {
    GrowsReflexive(n);
    if parts != [] {
      var part := parts[0];
      var child := ChildAt(n, part.name);
      var marked := child.(isArray := child.isArray || at == 1, required := child.required || !part.optional);
      InsertGrows(marked, parts[1..], at - 1, leaf);
    }
  }

  lemma {:induction false} InsertCovers(n: Node, parts: seq<PathPart>, at: int, leaf: bool)
    ensures Covers(Insert(n, parts, at, leaf), parts, at)
    decreases |parts|
  {
    if parts != [] {
      var part := parts[0];
      var child := ChildAt(n, part.name);
      var marked := child.(isArray := child.isArray || at == 1, required := child.required || !part.optional);
      InsertCovers(marked, parts[1..], at - 1, leaf);
      InsertGrows(marked, parts[1..], at - 1, leaf);
    }
  }

  lemma {:induction false} GrowsCovers(a: Node, b: Node, parts: seq<PathPart>, at: int)
    requires Grows(a, b) && Covers(a, parts, at)
    ensures Covers(b, parts, at)
    decreases |parts|
  {
    if parts != [] {
      GrowsCovers(a.children[parts[0].name], b.children[parts[0].name], parts[1..], at - 1);
    }
  }

  /** No path is lost or weakened by the paths folded in after it. */
  lemma {:induction false} TreeCoversEveryPath(paths: seq<PathInfo>, p: PathInfo)
    requires p in paths
    ensures Covers(BuildTree(paths), p.parts, p.arrayAt)
  {
    var last, earlier := paths[|paths| - 1], paths[..|paths| - 1];
    var before := BuildTree(earlier);
    if p in earlier {
      TreeCoversEveryPath(earlier, p);
      InsertGrows(before, last.parts, last.arrayAt, last.leaf);
      GrowsCovers(before, BuildTree(paths), p.parts, p.arrayAt);
    } else {
      InsertCovers(before, last.parts, last.arrayAt, last.leaf);
    }
  }

  // ---- Nothing else is in the tree ----

  /** The names lead to a node. */
  predicate Has(n: Node, names: seq<string>)
    decreases |names|
  {
    names == [] || (names[0] in n.children && Has(n.children[names[0]], names[1..]))
  }

  /** The names lead to a node that is required of its parent. */
  predicate HasRequired(n: Node, names: seq<string>)
    decreases |names|
  {
    && names != [] && names[0] in n.children
    && if |names| == 1 then n.children[names[0]].required else HasRequired(n.children[names[0]], names[1..])
  }

  /** The names lead to an array node. */
  predicate HasArray(n: Node, names: seq<string>)
    decreases |names|
  {
    && names != [] && names[0] in n.children
    && if |names| == 1 then n.children[names[0]].isArray else HasArray(n.children[names[0]], names[1..])
  }

  predicate StartsWith(parts: seq<PathPart>, names: seq<string>) {
    |names| <= |parts| && forall i | 0 <= i < |names| :: parts[i].name == names[i]
  }

  /** The part that the last of the names stands for is mandatory. */
  predicate Demands(parts: seq<PathPart>, names: seq<string>) {
    names != [] && StartsWith(parts, names) && !parts[|names| - 1].optional
  }

  predicate Iterates(parts: seq<PathPart>, at: int, names: seq<string>) {
    names != [] && StartsWith(parts, names) && at == |names|
  }

  /** Inserting a path adds its own nodes and flags, and nothing else. */
  lemma {:induction false} InsertAddsOnly(n: Node, parts: seq<PathPart>, at: int, leaf: bool, names: seq<string>)
    ensures var m := Insert(n, parts, at, leaf);
            && (Has(m, names) <==> Has(n, names) || StartsWith(parts, names))
            && (HasRequired(m, names) <==> HasRequired(n, names) || Demands(parts, names))
            && (HasArray(m, names) <==> HasArray(n, names) || Iterates(parts, at, names))
            && m.required == n.required && m.isArray == n.isArray
    decreases |names|
  {
    if parts != [] && names != [] && names[0] == parts[0].name {
      var child := ChildAt(n, parts[0].name);
      var marked := child.(isArray := child.isArray || at == 1, required := child.required || !parts[0].optional);
      InsertAddsOnly(marked, parts[1..], at - 1, leaf, names[1..]);
      MarksAreNotInside(child, marked, names[1..]);
      StartsWithMore(parts, names);
      if |names| > 1 { InnerNames(n, parts, at, leaf, names, marked); }
        else { LastName(n, parts, at, leaf, names, marked); }
    } else if parts != [] && names != [] {
      assert !StartsWith(parts, names);
    }
  }

  /** What the children are after inserting under the name of the first part. */
  lemma InnerNames(n: Node, parts: seq<PathPart>, at: int, leaf: bool, names: seq<string>, marked: Node)
    requires parts != [] && |names| > 1 && names[0] == parts[0].name
    requires var child := ChildAt(n, parts[0].name);
             marked == child.(isArray := child.isArray || at == 1, required := child.required || !parts[0].optional)
    ensures var m, inner := Insert(n, parts, at, leaf), Insert(marked, parts[1..], at - 1, leaf);
            && Has(m, names) == Has(inner, names[1..])
            && HasRequired(m, names) == HasRequired(inner, names[1..])
            && HasArray(m, names) == HasArray(inner, names[1..])
    ensures Has(n, names) == Has(ChildAt(n, names[0]), names[1..])
    ensures HasRequired(n, names) == HasRequired(ChildAt(n, names[0]), names[1..])
    ensures HasArray(n, names) == HasArray(ChildAt(n, names[0]), names[1..])
  {}

  lemma LastName(n: Node, parts: seq<PathPart>, at: int, leaf: bool, names: seq<string>, marked: Node)
    requires parts != [] && |names| == 1 && names[0] == parts[0].name
    requires var child := ChildAt(n, parts[0].name);
             marked == child.(isArray := child.isArray || at == 1, required := child.required || !parts[0].optional)
    ensures var m, inner := Insert(n, parts, at, leaf), Insert(marked, parts[1..], at - 1, leaf);
            Has(m, names) && HasRequired(m, names) == inner.required && HasArray(m, names) == inner.isArray
    ensures HasRequired(n, names) == ChildAt(n, names[0]).required && HasArray(n, names) == ChildAt(n, names[0]).isArray
  {
    assert Has(Insert(n, parts, at, leaf).children[names[0]], names[1..]);
  }

  lemma MarksAreNotInside(a: Node, b: Node, names: seq<string>)
    requires a.children == b.children
    ensures Has(a, names) == Has(b, names)
    ensures HasRequired(a, names) == HasRequired(b, names) && HasArray(a, names) == HasArray(b, names)
  {}

  lemma StartsWithMore(parts: seq<PathPart>, names: seq<string>)
    requires parts != [] && names != [] && parts[0].name == names[0]
    ensures StartsWith(parts, names) <==> StartsWith(parts[1..], names[1..])
  {
    if StartsWith(parts[1..], names[1..]) {
      forall i | 0 <= i < |names| ensures parts[i].name == names[i] {
        if i > 0 { assert parts[1..][i - 1] == parts[i] && names[1..][i - 1] == names[i]; }
      }
    }
  }

  ghost predicate SomeStartsWith(paths: seq<PathInfo>, names: seq<string>) {
    exists p :: p in paths && StartsWith(p.parts, names)
  }

  ghost predicate SomeDemands(paths: seq<PathInfo>, names: seq<string>) {
    exists p :: p in paths && Demands(p.parts, names)
  }

  ghost predicate SomeIterates(paths: seq<PathInfo>, names: seq<string>) {
    exists p :: p in paths && Iterates(p.parts, p.arrayAt, names)
  }

  /** A node, a required flag or an array flag is in the tree exactly when some recorded path put it there. */
  lemma {:induction false} TreeStemsFromPaths(paths: seq<PathInfo>, names: seq<string>)
    requires names != []
    ensures Has(BuildTree(paths), names) <==> SomeStartsWith(paths, names)
    ensures HasRequired(BuildTree(paths), names) <==> SomeDemands(paths, names)
    ensures HasArray(BuildTree(paths), names) <==> SomeIterates(paths, names)
  {
    if paths != [] {
      var last, earlier := paths[|paths| - 1], paths[..|paths| - 1];
      TreeStemsFromPaths(earlier, names);
      InsertAddsOnly(BuildTree(earlier), last.parts, last.arrayAt, last.leaf, names);
      assert forall p :: p in paths <==> p in earlier || p == last;
    }
  }

  /** The root of a built tree is never iterated and never required. */
  lemma {:induction false} RootIsPlain(paths: seq<PathInfo>)
    ensures !BuildTree(paths).isArray && !BuildTree(paths).required
  {
    if paths != [] { RootIsPlain(paths[..|paths| - 1]); }
  }

  /** Data with the shape of the tree can be followed along everything the tree covers. */
  lemma {:induction false} SafeFollows(v: Value, n: Node, parts: seq<PathPart>, at: int)
    requires SafeItem(v, n) && Covers(n, parts, at)
    ensures Follows(v, n, parts)
    decreases |parts|
  {
    if parts != [] {
      var name := parts[0].name;
      var child := n.children[name];
      assert n.children != map[];
      if name in v.fields {
        var value := v.fields[name];
        assert Safe(value, child);
        if child.isArray {
          forall x | x in value.items ensures Follows(x, child, parts[1..]) {
            SafeFollows(x, child, parts[1..], at - 1);
          }
        } else {
          SafeFollows(value, child, parts[1..], at - 1);
        }
      }
    }
  }

  // ---- Completing a sample ----

  function CompleteFields(fields: map<string, Value>, n: Node): map<string, Value>
    decreases n, 0
  {
    map k | k in fields.Keys + n.children.Keys ::
      if k !in n.children then fields[k]
      else if k in fields then CompleteExisting(fields[k], n.children[k])
      else CompleteMissing(n.children[k])
  }

  /** A value that is there already is only ever extended; a conflicting one is left alone. */
  function CompleteExisting(v: Value, n: Node): Value
    decreases n, 1
  {
    if n.isArray then
      if !v.Array? then v
      else if v.items == [] then Array([Object(CompleteFields(map[], n))])
      else if v.items[0].Object? then Array(v.items[0 := Object(CompleteFields(v.items[0].fields, n))])
      else v
    else if n.children != map[] && v.Object? then Object(CompleteFields(v.fields, n))
    else v
  }

  function CompleteMissing(n: Node): Value
    decreases n, 1
  {
    if n.isArray then Array([Object(CompleteFields(map[], n))])
    else if n.children != map[] then Object(CompleteFields(map[], n))
    else String("")
  }

  /** What inference assumes for a missing field, before any completion. */
  function DefaultFor(n: Node): Value {
    if n.isArray then Array([EmptyObject])
    else if n.children != map[] then EmptyObject
    else String("")
  }

  lemma NoChildrenNoChange(fields: map<string, Value>, n: Node)
    requires n.children == map[]
    ensures CompleteFields(fields, n) == fields
  {}

  /** The loop over the children, writing into the map it was given. */
  method MergeObject(value: map<string, Value>, n: Node) returns (merged: map<string, Value>)
    ensures merged == CompleteFields(value, n)
    decreases n, 0
  {
    merged := value;
    var remaining := n.children.Keys;
    while remaining != {}
      invariant remaining <= n.children.Keys
      invariant merged.Keys == value.Keys + (n.children.Keys - remaining)
      invariant forall k | k in merged ::
                  merged[k] == if k in remaining then value[k] else CompleteFields(value, n)[k]
    {
      var name :| name in remaining;
      remaining := remaining - {name};
      merged := MergeChild(merged, name, n.children[name]);
    }
  }

  /** One round of the loop: an array's first item or an object is completed in place, and what is missing is added. */
  method MergeChild(value: map<string, Value>, name: string, child: Node) returns (merged: map<string, Value>)
    ensures merged ==
              value[name := if name in value then CompleteExisting(value[name], child) else CompleteMissing(child)]
    decreases child, 1
  {
    merged := value;
    if child.isArray {
      if name !in merged || merged[name] == Array([]) {
        var item := MergeObject(map[], child);
        merged := merged[name := Array([Object(item)])];
      } else if merged[name].Array? && merged[name].items[0].Object? {
        var items := merged[name].items;
        var item := MergeObject(items[0].fields, child);
        merged := merged[name := Array(items[0 := Object(item)])];
      }
    } else if child.children != map[] {
      if name !in merged {
        var inner := MergeObject(map[], child);
        merged := merged[name := Object(inner)];
      } else if merged[name].Object? {
        var inner := MergeObject(merged[name].fields, child);
        merged := merged[name := Object(inner)];
      }
    } else if name !in merged {
      merged := merged[name := String("")];
    }
  }

  /** Nothing that was in the sample is replaced, except empty arrays at array nodes. */
  ghost predicate Keeps(before: Value, after: Value, n: Node)
    decreases n, 1
  {
    || before == after
    || (n.isArray && before == Array([]))
    || (n.isArray && before.Array? && after.Array? && 0 < |before.items| == |after.items|
        && before.items[1..] == after.items[1..] && KeepsFields(before.items[0], after.items[0], n))
    || (!n.isArray && KeepsFields(before, after, n))
  }

  ghost predicate KeepsFields(before: Value, after: Value, n: Node)
    decreases n, 0
  {
    && before.Object? && after.Object?
    && (forall k | k in before.fields :: k in after.fields)
    && (forall k | k in after.fields :: k in before.fields || k in n.children)
    && (forall k | k in before.fields ::
          if k in n.children then Keeps(before.fields[k], after.fields[k], n.children[k])
          else after.fields[k] == before.fields[k])
  }

  lemma {:induction false} CompletionKeeps(fields: map<string, Value>, n: Node)
    ensures KeepsFields(Object(fields), Object(CompleteFields(fields, n)), n)
    decreases n, 0
  {
    forall k | k in fields && k in n.children
      ensures Keeps(fields[k], CompleteExisting(fields[k], n.children[k]), n.children[k])
    {
      CompletionKeepsExisting(fields[k], n.children[k]);
    }
  }

  lemma {:induction false} CompletionKeepsExisting(v: Value, n: Node)
    ensures Keeps(v, CompleteExisting(v, n), n)
    decreases n, 1
  {
    if n.isArray && v.Array? && v.items != [] && v.items[0].Object? {
      CompletionKeeps(v.items[0].fields, n);
      assert v.items[1..] == CompleteExisting(v, n).items[1..];
    } else if !n.isArray && n.children != map[] && v.Object? {
      CompletionKeeps(v.fields, n);
    }
  }

  /** Nothing that the tree expects is missing, down to the first item of every array. */
  ghost predicate Filled(v: Value, n: Node)
    decreases n, 1
  {
    if n.isArray then v.Array? ==> v.items != [] && (v.items[0].Object? ==> FilledFields(v.items[0].fields, n))
    else v.Object? ==> FilledFields(v.fields, n)
  }

  ghost predicate FilledFields(fields: map<string, Value>, n: Node)
    decreases n, 0
  {
    forall k | k in n.children :: k in fields && Filled(fields[k], n.children[k])
  }

  lemma {:induction false} CompletionFills(fields: map<string, Value>, n: Node)
    ensures FilledFields(CompleteFields(fields, n), n)
    decreases n, 0
  {
    forall k | k in n.children ensures Filled(CompleteFields(fields, n)[k], n.children[k]) {
      CompletionFillsChild(fields, n.children[k], k);
    }
  }

  lemma {:induction false} CompletionFillsChild(fields: map<string, Value>, n: Node, k: string)
    ensures k in fields ==> Filled(CompleteExisting(fields[k], n), n)
    ensures Filled(CompleteMissing(n), n)
    decreases n, 1
  {
    CompletionFills(map[], n);
    if k in fields {
      if !n.isArray && fields[k].Object? {
        CompletionFills(fields[k].fields, n);
      } else if n.isArray && fields[k].Array? && fields[k].items != [] && fields[k].items[0].Object? {
        CompletionFills(fields[k].items[0].fields, n);
      }
    }
  }

  lemma {:induction false} CompletionIdempotent(fields: map<string, Value>, n: Node)
    ensures CompleteFields(CompleteFields(fields, n), n) == CompleteFields(fields, n)
    decreases n, 0
  {
    var once := CompleteFields(fields, n);
    forall k | k in n.children ensures CompleteExisting(once[k], n.children[k]) == once[k] {
      CompletionSettles(n.children[k]);
      if k in fields { CompletionIdempotentExisting(fields[k], n.children[k]); }
    }
  }

  lemma {:induction false} CompletionIdempotentExisting(v: Value, n: Node)
    ensures CompleteExisting(CompleteExisting(v, n), n) == CompleteExisting(v, n)
    decreases n, 1
  {
    if n.isArray && v.Array? {
      var fields := if v.items == [] then map[] else if v.items[0].Object? then v.items[0].fields else map[];
      CompletionIdempotent(fields, n);
    } else if !n.isArray && n.children != map[] && v.Object? {
      CompletionIdempotent(v.fields, n);
    }
  }

  lemma {:induction false} CompletionSettles(n: Node)
    ensures CompleteExisting(CompleteMissing(n), n) == CompleteMissing(n)
    decreases n, 1
  {
    CompletionIdempotent(map[], n);
  }
}
