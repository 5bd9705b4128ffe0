/** From tokens to recorded paths, and from source and sample to a contract. */
module ContractAnalysis {
  import opened Json
  import opened ContractLexer
  import opened ContractTree
  import opened ContractValidate
  import opened ContractInference
  import opened ContractSchema
  import opened ContractTheorems

  /** What a name in the source stands for: a path from the root of the data. */
  datatype Alias = Alias(parts: seq<PathPart>, arrayAt: nat)

  /** Why an access cannot be followed: a computed `.at` argument, or an index in brackets. */
  datatype Diagnostic = DynamicAt(offset: nat) | DynamicIndex(offset: nat)

  datatype Access = Access(parts: seq<PathPart>, end: nat, diagnostics: seq<Diagnostic>)

  // ---- Following one access ----

  predicate TextAt(t: seq<Token>, i: nat, text: string) {
    i < |t| && t[i].text == text
  }

  predicate KindAt(t: seq<Token>, i: nat, kind: Kind) {
    i < |t| && t[i].kind == kind
  }

  datatype Call = Call(end: nat, optional: bool)

  /** The arguments of an `.at` call from `i` on: where it ends, and whether it names a default. */
  function AtCall(t: seq<Token>, i: nat, depth: nat, optional: bool): (c: Call)
    requires i <= |t|
    ensures i <= c.end <= |t|
    decreases |t| - i
  {
    if i == |t| || depth == 0 then Call(i, optional)
    else
      var inner := Step(t[i], depth);
      AtCall(t, i + 1, inner, optional || (inner == 1 && t[i].text == "default" && TextAt(t, i + 1, ":")))
  }

  /** The access whose last token so far is at `i`. */
  function FollowFrom(t: seq<Token>, i: nat, parts: seq<PathPart>): (a: Access)
    requires i < |t|
    ensures i <= a.end < |t|
    ensures parts <= a.parts
    decreases |t| - i, 2
  {
    if TextAt(t, i + 1, ".") && KindAt(t, i + 2, Identifier) then FollowField(t, i, parts)
    else if TextAt(t, i + 1, "[") && t[i].offset + |t[i].text| == t[i + 1].offset then
      Access(parts, i, [DynamicIndex(t[i + 1].offset)])
    else Access(parts, i, [])
  }

  /** A call other than `.at` yields a derived value, which is not followed. */
  function FollowField(t: seq<Token>, i: nat, parts: seq<PathPart>): (a: Access)
    requires i + 2 < |t|
    ensures i <= a.end < |t|
    ensures parts <= a.parts
    decreases |t| - i, 1
  {
    if TextAt(t, i + 3, "(") then
      if t[i + 2].text == "at" then FollowAt(t, i, parts) else Access(parts, i, [])
    else FollowFrom(t, i + 2, parts + [PathPart(t[i + 2].text, false)])
  }

  function FollowAt(t: seq<Token>, i: nat, parts: seq<PathPart>): (a: Access)
    requires i + 3 < |t|
    ensures i <= a.end < |t|
    ensures parts <= a.parts
    decreases |t| - i, 0
  {
    if KindAt(t, i + 4, StringToken) then
      var call := AtCall(t, i + 5, 1, false);
      FollowFrom(t, call.end - 1, parts + [PathPart(t[i + 4].text, call.optional)])
    else Access(parts, i + 3, [DynamicAt(t[i + 2].offset)])
  }

  /** The loop that follows one access. */
  method ParseAccess(t: seq<Token>, start: nat, base: Alias)
    returns (info: PathInfo, end: nat, diagnostics: seq<Diagnostic>)
    requires start < |t|
    ensures Access(info.parts, end, diagnostics) == FollowFrom(t, start, base.parts)
    ensures info.arrayAt == base.arrayAt
  {
    var parts, i := base.parts, start;
    diagnostics := [];
    while i + 1 < |t|
      invariant start <= i < |t|
      invariant diagnostics == []
      invariant FollowFrom(t, i, parts) == FollowFrom(t, start, base.parts)
      decreases |t| - i
    {
      if t[i + 1].text == "." && i + 2 < |t| && t[i + 2].kind == Identifier {
        var field := t[i + 2];
        if field.text == "at" && i + 3 < |t| && t[i + 3].text == "(" {
          assert FollowFrom(t, i, parts) == FollowField(t, i, parts) == FollowAt(t, i, parts);
          if i + 4 >= |t| || t[i + 4].kind != StringToken {
            diagnostics := diagnostics + [DynamicAt(field.offset)];
            return PathInfo(parts, base.arrayAt, false), i + 3, diagnostics;
          }
          var optional, stop, depth := false, i + 5, 1;
          while stop < |t| && depth > 0
            invariant i + 5 <= stop <= |t| && depth >= 0
            invariant AtCall(t, stop, depth, optional) == AtCall(t, i + 5, 1, false)
          {
            if t[stop].text == "(" {
              depth := depth + 1;
            }
            if t[stop].text == ")" {
              depth := depth - 1;
            }
            if depth == 1 && t[stop].text == "default" && stop + 1 < |t| && t[stop + 1].text == ":" {
              optional := true;
            }
            stop := stop + 1;
          }
          parts := parts + [PathPart(t[i + 4].text, optional)];
          i := stop - 1;
          continue;
        }
        if i + 3 < |t| && t[i + 3].text == "(" {
          break;
        }
        parts := parts + [PathPart(field.text, false)];
        i := i + 2;
        continue;
      }
      if t[i + 1].text == "[" && t[i].offset + |t[i].text| == t[i + 1].offset {
        diagnostics := diagnostics + [DynamicIndex(t[i + 1].offset)];
      }
      break;
    }
    info, end := PathInfo(parts, base.arrayAt, false), i;
  }

  function Step(t: Token, depth: nat): int {
    depth + (if t.text == "(" then 1 else 0) - (if t.text == ")" then 1 else 0)
  }

  // ---- The scan over all tokens ----

  datatype State = State(aliases: map<string, Alias>, paths: seq<PathInfo>, diagnostics: seq<Diagnostic>)

  /** What the scan does at one token: the new state, where to go on, and whether the path limit is looked at. */
  datatype Move = Move(state: State, next: nat, limited: bool)

  const ROOT_FILES := {"report.json", "data.json"}

  predicate RootDeclarationAt(t: seq<Token>, i: nat) {
    && i + 6 < |t|
    && t[i].text == "let" && t[i + 1].kind == Identifier && t[i + 2].text == "=" && t[i + 3].text == "json"
    && t[i + 4].text == "(" && t[i + 5].kind == StringToken && t[i + 6].text == ")"
  }

  /** `let x = y…` or `for x in y…` where `y` is an alias. */
  predicate BindingAt(t: seq<Token>, i: nat, keyword: string, link: string, aliases: map<string, Alias>) {
    && i + 3 < |t|
    && t[i].text == keyword && t[i + 1].kind == Identifier && t[i + 2].text == link
    && t[i + 3].text in aliases
  }

  function MoveAt(t: seq<Token>, i: nat, st: State): (m: Move)
    requires i < |t|
    ensures m.next > i
  {
    if RootDeclarationAt(t, i) then
      Move(if t[i + 5].text !in ROOT_FILES then st else st.(aliases := st.aliases[t[i + 1].text := Alias([], 0)]),
           i + 1, false)
    else if BindingAt(t, i, "let", "=", st.aliases) then
      var base := st.aliases[t[i + 3].text];
      var a := FollowFrom(t, i + 3, base.parts);
      Move(State(st.aliases[t[i + 1].text := Alias(a.parts, base.arrayAt)],
                 if a.parts == [] then st.paths else st.paths + [PathInfo(a.parts, base.arrayAt, false)],
                 st.diagnostics + a.diagnostics), a.end + 1, false)
    else if BindingAt(t, i, "for", "in", st.aliases) then
      var a := FollowFrom(t, i + 3, st.aliases[t[i + 3].text].parts);
      Move(State(st.aliases[t[i + 1].text := Alias(a.parts, |a.parts|)],
                 st.paths + [PathInfo(a.parts, |a.parts|, false)],
                 st.diagnostics + a.diagnostics), a.end + 1, false)
    else if t[i].text in st.aliases then
      var base := st.aliases[t[i].text];
      var a := FollowFrom(t, i, base.parts);
      Move(State(st.aliases,
                 if a.parts == [] then st.paths else st.paths + [PathInfo(a.parts, base.arrayAt, true)],
                 st.diagnostics + a.diagnostics), a.end + 1, true)
    else Move(st, i + 1, true)
  }

  datatype Scanned = Scanned(state: State) | ScanTooComplex

  function ScanFrom(t: seq<Token>, i: nat, st: State): Scanned
    decreases |t| - i
  {
    if i >= |t| then Scanned(st)
    else
      var m := MoveAt(t, i, st);
      if m.limited && |m.state.paths| > MAX_PATHS then ScanTooComplex else ScanFrom(t, m.next, m.state)
  }

  const INITIAL := State(map[], [], [])

  /** The loop over all tokens. */
  method AnalyzeTokens(t: seq<Token>) returns (r: Scanned)
    ensures r == ScanFrom(t, 0, INITIAL)
  {
    var st, i := INITIAL, 0;
    while i < |t|
      invariant ScanFrom(t, i, st) == ScanFrom(t, 0, INITIAL)
      decreases |t| - i
    {
      var next, limited;
      ghost var m := MoveAt(t, i, st);
      st, next, limited := AnalyzeAt(t, i, st);
      assert Move(st, next, limited) == m;
      if limited && |st.paths| > MAX_PATHS {
        return ScanTooComplex;
      }
      i := next;
    }
    r := Scanned(st);
  }

  /** The body of the loop; a declaration or a binding goes on without looking at the limit. */
  method AnalyzeAt(t: seq<Token>, i: nat, before: State) returns (st: State, next: nat, limited: bool)
    requires i < |t|
    ensures Move(st, next, limited) == MoveAt(t, i, before)
  {
    st := before;
    if RootDeclarationAt(t, i) {
      if t[i + 5].text in ROOT_FILES {
        st := st.(aliases := st.aliases[t[i + 1].text := Alias([], 0)]);
      }
      return st, i + 1, false;
    }
    if BindingAt(t, i, "let", "=", st.aliases) {
      var info, end, diagnostics := ParseAccess(t, i + 3, st.aliases[t[i + 3].text]);
      var aliases := st.aliases[t[i + 1].text := Alias(info.parts, info.arrayAt)];
      info := info.(leaf := false);
      st := State(aliases, if info.parts == [] then st.paths else st.paths + [info], st.diagnostics + diagnostics);
      return st, end + 1, false;
    }
    if BindingAt(t, i, "for", "in", st.aliases) {
      var info, end, diagnostics := ParseAccess(t, i + 3, st.aliases[t[i + 3].text]);
      info := PathInfo(info.parts, |info.parts|, false);
      st := State(st.aliases[t[i + 1].text := Alias(info.parts, info.arrayAt)], st.paths + [info],
                  st.diagnostics + diagnostics);
      return st, end + 1, false;
    }
    next := i + 1;
    if t[i].text in st.aliases {
      var info, end, diagnostics := ParseAccess(t, i, st.aliases[t[i].text]);
      info := info.(leaf := true);
      st := State(st.aliases, if info.parts == [] then st.paths else st.paths + [info], st.diagnostics + diagnostics);
      next := end + 1;
    }
    return st, next, true;
  }

  // ---- Aliases name places in the tree ----

  /** Every alias is a root or the place of a recorded path, iterated where that path is. */
  ghost predicate AliasesRecorded(st: State) {
    forall name | name in st.aliases ::
      st.aliases[name].parts == [] ||
      exists p | p in st.paths :: p.parts == st.aliases[name].parts && p.arrayAt == st.aliases[name].arrayAt
  }

  lemma MoveKeepsAliases(t: seq<Token>, i: nat, st: State)
    requires i < |t| && AliasesRecorded(st)
    ensures AliasesRecorded(MoveAt(t, i, st).state)
  {
    var after := MoveAt(t, i, st).state;
    assert forall p | p in st.paths :: p in after.paths;
    assert |after.paths| > |st.paths| ==> after.paths[|after.paths| - 1] in after.paths;
  }

  lemma {:induction false} ScanKeepsAliases(t: seq<Token>, i: nat, st: State)
    requires AliasesRecorded(st)
    ensures ScanFrom(t, i, st).Scanned? ==> AliasesRecorded(ScanFrom(t, i, st).state)
    decreases |t| - i
  {
    if i < |t| {
      MoveKeepsAliases(t, i, st);
      var m := MoveAt(t, i, st);
      ScanKeepsAliases(t, m.next, m.state);
    }
  }

  /** Whatever a name bound in the source stands for, the tree has the path to it, loops flagged as arrays. */
  lemma AliasesAreCovered(t: seq<Token>, name: string)
    requires ScanFrom(t, 0, INITIAL).Scanned? && name in ScanFrom(t, 0, INITIAL).state.aliases
    ensures var st := ScanFrom(t, 0, INITIAL).state;
            Covers(BuildTree(st.paths), st.aliases[name].parts, st.aliases[name].arrayAt)
  {
    ScanKeepsAliases(t, 0, INITIAL);
    var st := ScanFrom(t, 0, INITIAL).state;
    if st.aliases[name].parts != [] {
      var p :| p in st.paths && p.parts == st.aliases[name].parts && p.arrayAt == st.aliases[name].arrayAt;
      TreeCoversEveryPath(st.paths, p);
    }
  }

  // ---- From source and sample to a contract ----

  datatype Failure = SourceTooComplex | NotLexed(result: LexResult)

  datatype Analyzed =
    | Contract(sample: map<string, Value>, schema: Schema, paths: seq<PathInfo>, diagnostics: seq<Diagnostic>)
    | Refused(failure: Failure)

  function Analyze(source: string, decode: string -> Decoded, sample: map<string, Value>): Analyzed {
    match LexFrom(source, decode, 0, [])
    case Tokens(t) => AnalyzeScan(ScanFrom(t, 0, INITIAL), sample)
    case failure => Refused(NotLexed(failure))
  }

  function AnalyzeScan(scanned: Scanned, sample: map<string, Value>): Analyzed {
    if scanned.ScanTooComplex? || exists p | p in scanned.state.paths :: |p.parts| > MAX_DEPTH then
      Refused(SourceTooComplex)
    else
      var root := BuildTree(scanned.state.paths);
      var completed := CompleteFields(sample, root);
      match SchemaFor(Object(completed), root, 0)
      case TooDeep => Refused(SourceTooComplex)
      case Inferred(schema) => Contract(completed, schema, scanned.state.paths, scanned.state.diagnostics)
  }

  /** The whole analysis, as it is carried out. */
  method RunAnalysis(source: string, decode: string -> Decoded, sample: map<string, Value>) returns (r: Analyzed)
    ensures r == Analyze(source, decode, sample)
  {
    var lexed := Lex(source, decode);
    if !lexed.Tokens? {
      return Refused(NotLexed(lexed));
    }
    var scanned := AnalyzeTokens(lexed.tokens);
    if scanned.ScanTooComplex? {
      return Refused(SourceTooComplex);
    }
    var paths, root := scanned.state.paths, EmptyNode;
    for k := 0 to |paths|
      invariant root == BuildTree(paths[..k])
      invariant forall j | 0 <= j < k :: |paths[j].parts| <= MAX_DEPTH
    {
      if |paths[k].parts| > MAX_DEPTH {
        return Refused(SourceTooComplex);
      }
      assert paths[..k + 1][..k] == paths[..k];
      root := Insert(root, paths[k].parts, paths[k].arrayAt, paths[k].leaf);
    }
    assert paths[..|paths|] == paths;
    var completed := MergeObject(sample, root);
    var inferred := SchemaFor(Object(completed), root, 0);
    r := match inferred
      case TooDeep => Refused(SourceTooComplex)
      case Inferred(schema) => Contract(completed, schema, paths, scanned.state.diagnostics);
  }

  /**
   A source has a contract exactly when it can be lexed and scanned, no access is longer
   than the bound, and the completed sample, with what the tree expects of it, is nowhere
   nested deeper than the bound.
   */
  lemma ContractExistsWhen(source: string, decode: string -> Decoded, sample: map<string, Value>)
    ensures Analyze(source, decode, sample).Contract? <==>
              && LexFrom(source, decode, 0, []).Tokens?
              && ScanFrom(LexFrom(source, decode, 0, []).tokens, 0, INITIAL).Scanned?
              && var paths := ScanFrom(LexFrom(source, decode, 0, []).tokens, 0, INITIAL).state.paths;
                 var root := BuildTree(paths);
                 && (forall p | p in paths :: |p.parts| <= MAX_DEPTH)
                 && (forall place | Reaches(Object(CompleteFields(sample, root)), root, place) :: |place| <= MAX_DEPTH)
  {
    if LexFrom(source, decode, 0, []).Tokens? {
      var scanned := ScanFrom(LexFrom(source, decode, 0, []).tokens, 0, INITIAL);
      if scanned.Scanned? {
        var root := BuildTree(scanned.state.paths);
        InferredExactlyWhen(Object(CompleteFields(sample, root)), root, 0);
      }
    }
  }

  /** Comments do not change what the analysis says, exactly when the source leaves none open. */
  lemma ContractIgnoresComments(source: string, decode: string -> Decoded, sample: map<string, Value>)
    ensures Analyze(Blank(source, 0), decode, sample) == Analyze(source, decode, sample) <==>
              !LeavesCommentOpen(source, 0, 0)
  {
    CommentBlindness(source, decode);
    ComplainsOfOpenComments(source, decode, 0, []);
  }

  /** Data that conforms to the contract can be followed along every recorded path. */
  lemma RecordedPathIsSafe(source: string, decode: string -> Decoded, sample: map<string, Value>, d: Value, p: PathInfo)
    requires Analyze(source, decode, sample).Contract? && p in Analyze(source, decode, sample).paths
    requires Conforms(Analyze(source, decode, sample).schema, d)
    ensures Follows(d, BuildTree(Analyze(source, decode, sample).paths), p.parts)
  {
    AccessSafety(Analyze(source, decode, sample).paths, sample, d, p);
  }

  /** Analysing a template with its completed sample yields the same contract. */
  lemma ContractIsStable(source: string, decode: string -> Decoded, sample: map<string, Value>)
    requires Analyze(source, decode, sample).Contract?
    ensures Analyze(source, decode, Analyze(source, decode, sample).sample) == Analyze(source, decode, sample)
  {
    AnalysisIsStable(Analyze(source, decode, sample).paths, sample);
  }

  /**
   When the completed sample passes validation against the contract it produced: it has
   the shape of the tree, and nowhere in it does an array meet something else where the
   tree expects neither. Validation also stays within its depth bound.
   */
  lemma ContractAcceptsSample(source: string, decode: string -> Decoded, sample: map<string, Value>)
    requires Analyze(source, decode, sample).Contract?
    ensures var c := Analyze(source, decode, sample);
            && (Conforms(c.schema, Object(c.sample)) <==>
                  Safe(Object(c.sample), BuildTree(c.paths)) && NeverMixes({Object(c.sample)}, BuildTree(c.paths)))
            && Visits(c.schema, Object(c.sample), 0)
  {
    var c := Analyze(source, decode, sample);
    var root := BuildTree(c.paths);
    SelfSatisfaction(Object(c.sample), root, 0);
    InferenceDescribes(Object(c.sample), root, 0);
    SampleIsVisited(c.schema, {Object(c.sample)}, root, Object(c.sample), 0);
  }

  /** The condition is needed: a list holding both a list and a string is rejected by its own schema. */
  lemma MixedListRejectsItself()
    ensures var mixed := Object(map["a" := Array([Array([]), String("x")])]);
            && SchemaFor(mixed, EmptyNode, 0).Inferred?
            && Safe(mixed, EmptyNode)
            && !Conforms(SchemaFor(mixed, EmptyNode, 0).schema, mixed)
  {
    var list := Array([Array([]), String("x")]);
    var mixed := Object(map["a" := list]);
    assert FoldItems(list.items[..1], EmptyNode, 2) == Inferred(ArrayOf(Typed({TString})));
    assert FoldItems(list.items, EmptyNode, 2) == Inferred(Typed({TArray} + {TString}));
    assert SchemaFor(list, EmptyNode, 1) == Inferred(ArrayOf(Typed({TArray} + {TString})));
    assert KeysOf(mixed, EmptyNode) == {"a"};
    assert SchemaFor(mixed, EmptyNode, 0) == ObjectSchema(mixed, EmptyNode, 0);
    InferenceDescribes(mixed, EmptyNode, 0);
    UnionsComeFromMixing(SchemaFor(mixed, EmptyNode, 0).schema, {mixed}, EmptyNode);
    SelfSatisfaction(mixed, EmptyNode, 0);
  }
}
