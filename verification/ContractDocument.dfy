/**
 What a source says, as a document: its accesses, declarations and bindings as they are
 written. The scan records exactly what the document means.
 */
module ContractDocument {
  import opened Json
  import opened ContractLexer
  import opened ContractTree
  import opened ContractSchema
  import opened ContractValidate
  import opened ContractAnalysis

  // ---- Links ----

  /** One link of an access as it is written: a field, or an `.at` call with further arguments. */
  datatype Link = FieldLink(name: string) | AtLink(name: string, arguments: seq<Token>)

  /** Parentheses in the arguments match: the depth never drops below that of the call. */
  predicate Nested(arguments: seq<Token>, depth: nat) {
    if arguments == [] then depth == 1
    else Step(arguments[0], depth) >= 1 && Nested(arguments[1..], Step(arguments[0], depth))
  }

  /** The call is still open when the arguments end. */
  predicate StaysOpen(arguments: seq<Token>, depth: nat) {
    if arguments == [] then depth >= 1
    else Step(arguments[0], depth) >= 1 && StaysOpen(arguments[1..], Step(arguments[0], depth))
  }

  /** A `default:` argument of the call itself, not of a call nested in it. */
  predicate NamesDefault(arguments: seq<Token>, depth: nat) {
    && arguments != []
    && Step(arguments[0], depth) >= 1
    && (|| (Step(arguments[0], depth) == 1 && arguments[0].text == "default" && TextAt(arguments, 1, ":"))
        || NamesDefault(arguments[1..], Step(arguments[0], depth)))
  }

  /** How many more parentheses are opened than closed. */
  function Balance(t: seq<Token>): int {
    if t == [] then 0
    else (match t[0].text case "(" => 1 case ")" => -1 case _ => 0) + Balance(t[1..])
  }

  /** The call is open before each of the first tokens. */
  ghost predicate IsOpen(arguments: seq<Token>, depth: nat, upTo: nat)
    requires upTo <= |arguments|
  {
    forall k | 0 <= k <= upTo :: depth + Balance(arguments[..k]) >= 1
  }

  lemma BalanceStep(arguments: seq<Token>, depth: nat, k: nat)
    requires 0 < k <= |arguments|
    ensures depth + Balance(arguments[..k]) == Step(arguments[0], depth) + Balance(arguments[1..][..k - 1])
  {
    assert arguments[..k][1..] == arguments[1..][..k - 1];
  }

  lemma OpenStep(arguments: seq<Token>, depth: nat, upTo: nat)
    requires 0 < upTo <= |arguments| && depth >= 1
    ensures IsOpen(arguments, depth, upTo) <==>
              Step(arguments[0], depth) >= 1 && IsOpen(arguments[1..], Step(arguments[0], depth), upTo - 1)
  {
    var inner := Step(arguments[0], depth);
    BalanceStep(arguments, depth, 1);
    forall k | 0 < k <= upTo ensures depth + Balance(arguments[..k]) == inner + Balance(arguments[1..][..k - 1]) {
      BalanceStep(arguments, depth, k);
    }
    if IsOpen(arguments, depth, upTo) {
      assert depth + Balance(arguments[..1]) >= 1;
      forall k | 0 <= k <= upTo - 1 ensures inner + Balance(arguments[1..][..k]) >= 1 {
        assert depth + Balance(arguments[..k + 1]) >= 1;
      }
    }
  }

  /** Arguments are nested when their parentheses balance and never close the call itself. */
  lemma {:induction false} ArgumentsBalance(arguments: seq<Token>, depth: nat)
    requires depth >= 1
    ensures Nested(arguments, depth) <==>
              IsOpen(arguments, depth, |arguments|) && depth + Balance(arguments) == 1
    ensures StaysOpen(arguments, depth) <==> IsOpen(arguments, depth, |arguments|)
  {
    if arguments != [] {
      var inner := Step(arguments[0], depth);
      OpenStep(arguments, depth, |arguments|);
      BalanceStep(arguments, depth, |arguments|);
      assert arguments[..|arguments|] == arguments && arguments[1..][..|arguments| - 1] == arguments[1..];
      if inner >= 1 { ArgumentsBalance(arguments[1..], inner); }
    }
  }

  /** A default at the level of the call: no parenthesis that was opened before it is still open. */
  ghost predicate IsDefault(arguments: seq<Token>, depth: nat, k: nat) {
    && k < |arguments| && arguments[k].text == "default" && TextAt(arguments, k + 1, ":")
    && IsOpen(arguments, depth, k) && depth + Balance(arguments[..k]) == 1
  }

  lemma DefaultStep(arguments: seq<Token>, depth: nat, k: nat)
    requires arguments != [] && depth >= 1 && Step(arguments[0], depth) >= 0
    ensures IsDefault(arguments, depth, k + 1) <==>
              Step(arguments[0], depth) >= 1 && IsDefault(arguments[1..], Step(arguments[0], depth), k)
  {
    if k + 1 < |arguments| {
      OpenStep(arguments, depth, k + 1);
      BalanceStep(arguments, depth, k + 1);
    }
  }

  lemma {:induction false} DefaultsAreOwn(arguments: seq<Token>, depth: nat)
    requires depth >= 1
    ensures NamesDefault(arguments, depth) <==> exists k :: IsDefault(arguments, depth, k)
  {
    if arguments != [] {
      var inner := Step(arguments[0], depth);
      assert arguments[..0] == [];
      if NamesDefault(arguments, depth) {
        if NamesDefault(arguments[1..], inner) {
          DefaultsAreOwn(arguments[1..], inner);
          var k: nat :| IsDefault(arguments[1..], inner, k);
          DefaultStep(arguments, depth, k);
          assert IsDefault(arguments, depth, k + 1);
        } else {
          assert IsDefault(arguments, depth, 0);
        }
      }
      if exists k :: IsDefault(arguments, depth, k) {
        var k: nat :| IsDefault(arguments, depth, k);
        if k > 0 {
          DefaultStep(arguments, depth, k - 1);
          DefaultsAreOwn(arguments[1..], inner);
        }
      }
    }
  }

  function Meaning(link: Link): PathPart {
    match link
    case FieldLink(name) => PathPart(name, false)
    case AtLink(name, arguments) => PathPart(name, NamesDefault(arguments, 1))
  }

  function Meanings(links: seq<Link>): seq<PathPart> {
    if links == [] then [] else [Meaning(links[0])] + Meanings(links[1..])
  }

  /** How many tokens the link takes. */
  function Width(link: Link): nat {
    match link
    case FieldLink(_) => 2
    case AtLink(_, arguments) => |arguments| + 5
  }

  /** The next two tokens are a dot and a name. */
  predicate DotFollows(t: seq<Token>, i: nat) {
    TextAt(t, i + 1, ".") && KindAt(t, i + 2, Identifier)
  }

  /** A dot, `at` and an opening parenthesis. */
  predicate AtFollows(t: seq<Token>, i: nat) {
    DotFollows(t, i) && TextAt(t, i + 2, "at") && TextAt(t, i + 3, "(")
  }

  /** The tokens after `i` spell the link. */
  ghost predicate SpellsLink(t: seq<Token>, i: nat, link: Link) {
    && i + Width(link) < |t|
    && match link
       case FieldLink(name) => DotFollows(t, i) && TextAt(t, i + 2, name) && !TextAt(t, i + 3, "(")
       case AtLink(name, arguments) =>
         && AtFollows(t, i)
         && TextAt(t, i + 4, name) && KindAt(t, i + 4, StringToken)
         && Nested(arguments, 1)
         && t[i + 5..i + 5 + |arguments|] == arguments
         && TextAt(t, i + 5 + |arguments|, ")")
  }

  // ---- Chains ----

  /**
   How an access ends: nothing continues it, another call yields a derived value, an
   `.at` call has a computed argument, an index in brackets follows at once, or an
   `.at` call is never closed.
   */
  datatype Ending =
    | Plain
    | Derived
    | Computed(offset: nat)
    | Indexed(offset: nat)
    | NeverClosed(name: string, arguments: seq<Token>)

  /** An access as it is written. */
  datatype Chain = Chain(links: seq<Link>, ending: Ending)

  predicate IndexFollows(t: seq<Token>, i: nat) {
    i < |t| && TextAt(t, i + 1, "[") && t[i].offset + |t[i].text| == t[i + 1].offset
  }

  ghost predicate EndsAs(t: seq<Token>, i: nat, ending: Ending) {
    && i < |t|
    && match ending
       case Plain => !DotFollows(t, i) && !IndexFollows(t, i)
       case Indexed(offset) => !DotFollows(t, i) && IndexFollows(t, i) && t[i + 1].offset == offset
       case Derived => DotFollows(t, i) && !TextAt(t, i + 2, "at") && TextAt(t, i + 3, "(")
       case Computed(offset) => AtFollows(t, i) && !KindAt(t, i + 4, StringToken) && t[i + 2].offset == offset
       case NeverClosed(name, arguments) =>
         && AtFollows(t, i) && KindAt(t, i + 4, StringToken) && TextAt(t, i + 4, name)
         && t[i + 5..] == arguments && StaysOpen(arguments, 1)
  }

  /** The last token the ending takes. */
  function LastOf(t: seq<Token>, i: nat, ending: Ending): nat
    requires i < |t|
  {
    match ending
    case Computed(_) => i + 3
    case NeverClosed(_, _) => |t| - 1
    case _ => i
  }

  /** The tokens after `i` spell the chain, and `end` is the last of them. */
  ghost predicate SpellsChain(t: seq<Token>, i: nat, chain: Chain, end: nat)
    decreases |chain.links|
  {
    if chain.links == [] then EndsAs(t, i, chain.ending) && end == LastOf(t, i, chain.ending)
    else SpellsLink(t, i, chain.links[0])
         && SpellsChain(t, i + Width(chain.links[0]), chain.(links := chain.links[1..]), end)
  }

  /** The names a chain follows. */
  function PartsOf(chain: Chain): seq<PathPart> {
    Meanings(chain.links)
    + match chain.ending
      case NeverClosed(name, arguments) => [PathPart(name, NamesDefault(arguments, 1))]
      case _ => []
  }

  /** What an author has to be told of: accesses whose names are not in the source. */
  function Complaints(ending: Ending): seq<Diagnostic> {
    match ending
    case Computed(offset) => [DynamicAt(offset)]
    case Indexed(offset) => [DynamicIndex(offset)]
    case _ => []
  }

  lemma {:induction false} ReadArguments(t: seq<Token>, arguments: seq<Token>, i: nat, depth: nat, optional: bool)
    requires i + |arguments| < |t| && t[i..i + |arguments|] == arguments && t[i + |arguments|].text == ")"
    requires depth >= 1 && Nested(arguments, depth)
    ensures AtCall(t, i, depth, optional) == Call(i + |arguments| + 1, optional || NamesDefault(arguments, depth))
    decreases |arguments|
  {
    if arguments != [] {
      var inner := Step(arguments[0], depth);
      assert t[i] == arguments[0];
      assert t[i + 1..i + |arguments|] == arguments[1..];
      assert |arguments| > 1 ==> t[i + 1] == arguments[1];
      var default := inner == 1 && t[i].text == "default" && TextAt(t, i + 1, ":");
      ReadArguments(t, arguments[1..], i + 1, inner, optional || default);
    }
  }

  lemma {:induction false} ReadOpenArguments(t: seq<Token>, i: nat, depth: nat, optional: bool)
    requires i <= |t| && depth >= 1 && StaysOpen(t[i..], depth)
    ensures AtCall(t, i, depth, optional) == Call(|t|, optional || NamesDefault(t[i..], depth))
    decreases |t| - i
  {
    if i < |t| {
      var inner := Step(t[i], depth);
      assert t[i..][1..] == t[i + 1..] && t[i..][0] == t[i];
      assert TextAt(t[i..], 1, ":") <==> TextAt(t, i + 1, ":");
      var default := inner == 1 && t[i].text == "default" && TextAt(t, i + 1, ":");
      ReadOpenArguments(t, i + 1, inner, optional || default);
    }
  }

  lemma LinkIsRead(t: seq<Token>, link: Link, i: nat, parts: seq<PathPart>)
    requires SpellsLink(t, i, link)
    ensures FollowFrom(t, i, parts) == FollowFrom(t, i + Width(link), parts + [Meaning(link)])
  {
    assert FollowFrom(t, i, parts) == FollowField(t, i, parts);
    if link.AtLink? {
      assert FollowField(t, i, parts) == FollowAt(t, i, parts);
      ReadArguments(t, link.arguments, i + 5, 1, false);
    }
  }

  lemma EndingIsRead(t: seq<Token>, i: nat, ending: Ending, parts: seq<PathPart>)
    requires EndsAs(t, i, ending)
    ensures FollowFrom(t, i, parts) ==
              Access(parts + PartsOf(Chain([], ending)), LastOf(t, i, ending), Complaints(ending))
  {
    assert parts + [] == parts;
    if DotFollows(t, i) { assert FollowFrom(t, i, parts) == FollowField(t, i, parts); }
    if AtFollows(t, i) { assert FollowField(t, i, parts) == FollowAt(t, i, parts); }
    if ending.NeverClosed? {
      ReadOpenArguments(t, i + 5, 1, false);
      var more := [PathPart(ending.name, NamesDefault(ending.arguments, 1))];
      assert [] + more == more;
      assert FollowFrom(t, |t| - 1, parts + more) == Access(parts + more, |t| - 1, []);
    }
  }

  /**
   Every access is read back as the names it is written with, calls nested in a default
   included; reading stops at its last token, and complains exactly where a name is
   not in the source.
   */
  lemma {:induction false} WrittenAccessIsRead(t: seq<Token>, i: nat, chain: Chain, end: nat, parts: seq<PathPart>)
    requires i < |t| && SpellsChain(t, i, chain, end)
    ensures FollowFrom(t, i, parts) == Access(parts + PartsOf(chain), end, Complaints(chain.ending))
    decreases |chain.links|
  {
    if chain.links != [] {
      var rest := chain.(links := chain.links[1..]);
      var next := parts + [Meaning(chain.links[0])];
      LinkIsRead(t, chain.links[0], i, parts);
      WrittenAccessIsRead(t, i + Width(chain.links[0]), rest, end, next);
      assert next + PartsOf(rest) == parts + PartsOf(chain);
    } else {
      EndingIsRead(t, i, chain.ending, parts);
    }
  }

  // ---- Every access is some chain ----

  /** Arguments either close their call, or stay open to the end of the source. */
  lemma {:induction false} ArgumentsEnd(t: seq<Token>, i: nat, depth: nat) returns (closed: bool, arguments: seq<Token>)
    requires i <= |t| && depth >= 1
    ensures closed ==>
              && i + |arguments| < |t| && t[i..i + |arguments|] == arguments
              && t[i + |arguments|].text == ")" && Nested(arguments, depth)
    ensures !closed ==> StaysOpen(t[i..], depth)
    decreases |t| - i
  {
    if i == |t| {
      closed, arguments := false, [];
    } else {
      var inner := Step(t[i], depth);
      if inner == 0 {
        closed, arguments := true, [];
      } else {
        var more;
        closed, more := ArgumentsEnd(t, i + 1, inner);
        arguments := [t[i]] + more;
        assert t[i..][0] == t[i] && t[i..][1..] == t[i + 1..];
        if closed { assert t[i..i + |arguments|] == [t[i]] + t[i + 1..i + 1 + |more|]; }
      }
    }
  }

  lemma LinkOrEnding(t: seq<Token>, i: nat) returns (ends: bool, link: Link, ending: Ending)
    requires i < |t|
    ensures if ends then EndsAs(t, i, ending) else SpellsLink(t, i, link)
  {
    ends, link, ending := true, FieldLink(""), Plain;
    if !DotFollows(t, i) {
      if IndexFollows(t, i) { ending := Indexed(t[i + 1].offset); }
    } else if !TextAt(t, i + 3, "(") {
      ends, link := false, FieldLink(t[i + 2].text);
    } else if !TextAt(t, i + 2, "at") {
      ending := Derived;
    } else if !KindAt(t, i + 4, StringToken) {
      ending := Computed(t[i + 2].offset);
    } else {
      var closed, arguments := ArgumentsEnd(t, i + 5, 1);
      if closed {
        ends, link := false, AtLink(t[i + 4].text, arguments);
      } else {
        ending := NeverClosed(t[i + 4].text, t[i + 5..]);
      }
    }
  }

  lemma {:induction false} ChainExists(t: seq<Token>, i: nat) returns (chain: Chain, end: nat)
    requires i < |t|
    ensures SpellsChain(t, i, chain, end)
    decreases |t| - i
  {
    var ends, link, ending := LinkOrEnding(t, i);
    if ends {
      chain, end := Chain([], ending), LastOf(t, i, ending);
    } else {
      var rest;
      rest, end := ChainExists(t, i + Width(link));
      chain := rest.(links := [link] + rest.links);
      assert chain.(links := chain.links[1..]) == rest;
    }
  }

  // ---- Items ----

  /** What a source consists of, as far as report data is concerned; most of it is other text. */
  datatype Item =
    | Other
    | Root(name: string, file: string)
    | Let(name: string, from: string, chain: Chain)
    | For(name: string, from: string, chain: Chain)
    | Use(from: string, chain: Chain)

  /** The tokens from `i` on have these texts. */
  predicate Reads(t: seq<Token>, i: nat, texts: seq<string>) {
    i + |texts| <= |t| && forall k | 0 <= k < |texts| :: t[i + k].text == texts[k]
  }

  /** `let name = json("file")` */
  predicate Declares(t: seq<Token>, i: nat, name: string, file: string) {
    && Reads(t, i, ["let", name, "=", "json", "(", file, ")"])
    && t[i + 1].kind == Identifier && t[i + 5].kind == StringToken
  }

  /** `let name = from` or `for name in from` */
  predicate Binds(t: seq<Token>, i: nat, keyword: string, name: string, link: string, from: string) {
    Reads(t, i, [keyword, name, link, from]) && t[i + 1].kind == Identifier
  }

  ghost predicate IsDeclaration(t: seq<Token>, i: nat) {
    exists name, file :: Declares(t, i, name, file)
  }

  /** The tokens bind a name to something that stands for report data. */
  ghost predicate IsBinding(t: seq<Token>, i: nat, keyword: string, link: string, aliases: map<string, Alias>) {
    exists name, from :: from in aliases && Binds(t, i, keyword, name, link, from)
  }

  ghost predicate BindsAt(t: seq<Token>, i: nat, aliases: map<string, Alias>) {
    IsDeclaration(t, i) || IsBinding(t, i, "let", "=", aliases) || IsBinding(t, i, "for", "in", aliases)
  }

  /** The scan tells declarations and bindings by their texts alone. */
  lemma DeclarationsAreSeen(t: seq<Token>, i: nat)
    requires i < |t|
    ensures RootDeclarationAt(t, i) <==> IsDeclaration(t, i)
    ensures RootDeclarationAt(t, i) ==> Declares(t, i, t[i + 1].text, t[i + 5].text)
  {
    if RootDeclarationAt(t, i) { assert Declares(t, i, t[i + 1].text, t[i + 5].text); }
    forall name, file | Declares(t, i, name, file) ensures RootDeclarationAt(t, i) {
      var texts := ["let", name, "=", "json", "(", file, ")"];
      assert forall k | 0 <= k < 7 :: t[i + k].text == texts[k];
      assert t[i + 0].text == texts[0] && t[i + 2].text == texts[2] && t[i + 3].text == texts[3];
      assert t[i + 4].text == texts[4] && t[i + 6].text == texts[6];
    }
  }

  lemma BindingIsSeen(t: seq<Token>, i: nat, keyword: string, name: string, link: string, from: string,
                      aliases: map<string, Alias>)
    requires Binds(t, i, keyword, name, link, from)
    ensures t[i].text == keyword && t[i + 1].text == name && t[i + 3].text == from
    ensures from in aliases ==> BindingAt(t, i, keyword, link, aliases)
  {
    var texts := [keyword, name, link, from];
    assert t[i + 0].text == texts[0] && t[i + 1].text == texts[1];
    assert t[i + 2].text == texts[2] && t[i + 3].text == texts[3];
  }

  lemma BindingsAreSeen(t: seq<Token>, i: nat, keyword: string, link: string, aliases: map<string, Alias>)
    requires i < |t|
    ensures BindingAt(t, i, keyword, link, aliases) <==> IsBinding(t, i, keyword, link, aliases)
    ensures BindingAt(t, i, keyword, link, aliases) ==> Binds(t, i, keyword, t[i + 1].text, link, t[i + 3].text)
  {
    if BindingAt(t, i, keyword, link, aliases) { assert Binds(t, i, keyword, t[i + 1].text, link, t[i + 3].text); }
    forall name, from | from in aliases && Binds(t, i, keyword, name, link, from)
      ensures BindingAt(t, i, keyword, link, aliases)
    {
      BindingIsSeen(t, i, keyword, name, link, from, aliases);
    }
  }

  /** The tokens from `i` up to `next` spell the item, while `aliases` are the names that stand for report data. */
  ghost predicate SpellsItem(t: seq<Token>, i: nat, item: Item, aliases: map<string, Alias>, next: nat) {
    && i < |t| && i < next
    && match item
       case Other => !BindsAt(t, i, aliases) && t[i].text !in aliases && next == i + 1
       case Root(name, file) => Declares(t, i, name, file) && next == i + 1
       case Let(name, from, chain) =>
         && !IsDeclaration(t, i) && from in aliases && Binds(t, i, "let", name, "=", from)
         && SpellsChain(t, i + 3, chain, next - 1)
       case For(name, from, chain) =>
         from in aliases && Binds(t, i, "for", name, "in", from) && SpellsChain(t, i + 3, chain, next - 1)
       case Use(from, chain) =>
         && !BindsAt(t, i, aliases) && t[i].text == from && from in aliases && SpellsChain(t, i, chain, next - 1)
  }

  predicate IsAccess(item: Item) {
    item.Let? || item.For? || item.Use?
  }

  /** What a name followed by a chain stands for. */
  function Target(aliases: map<string, Alias>, from: string, chain: Chain): Alias
    requires from in aliases
  {
    Alias(aliases[from].parts + PartsOf(chain), aliases[from].arrayAt)
  }

  /** The two files that report data is mounted as. */
  predicate IsReportFile(file: string) {
    file == "report.json" || file == "data.json"
  }

  function Recorded(paths: seq<PathInfo>, target: Alias, leaf: bool): seq<PathInfo> {
    if target.parts == [] then paths else paths + [PathInfo(target.parts, target.arrayAt, leaf)]
  }

  /**
   What an item means: a declaration of the report's file names the root of the data, a
   binding names a place in it and records it, a loop records the place as iterated and
   names its elements, and a use records what is used.
   */
  function Effect(item: Item, st: State): State {
    if IsAccess(item) && item.from !in st.aliases then st
    else match item
    case Other => st
    case Root(name, file) => if IsReportFile(file) then st.(aliases := st.aliases[name := Alias([], 0)]) else st
    case Let(name, from, chain) =>
      var target := Target(st.aliases, from, chain);
      State(st.aliases[name := target], Recorded(st.paths, target, false), st.diagnostics + Complaints(chain.ending))
    case For(name, from, chain) =>
      var parts := Target(st.aliases, from, chain).parts;
      State(st.aliases[name := Alias(parts, |parts|)], st.paths + [PathInfo(parts, |parts|, false)],
            st.diagnostics + Complaints(chain.ending))
    case Use(from, chain) =>
      State(st.aliases, Recorded(st.paths, Target(st.aliases, from, chain), true),
            st.diagnostics + Complaints(chain.ending))
  }

  lemma ItemIsRead(t: seq<Token>, i: nat, item: Item, st: State, next: nat)
    requires SpellsItem(t, i, item, st.aliases, next)
    ensures MoveAt(t, i, st) == Move(Effect(item, st), next, item.Use? || item.Other?)
  {
    DeclarationsAreSeen(t, i);
    match item {
      case Root(name, file) => DeclarationIsRead(t, i, name, file);
      case Let(name, from, chain) =>
        BindingIsSeen(t, i, "let", name, "=", from, st.aliases);
        WrittenAccessIsRead(t, i + 3, chain, next - 1, st.aliases[from].parts);
      case For(name, from, chain) =>
        BindingIsSeen(t, i, "for", name, "in", from, st.aliases);
        WrittenAccessIsRead(t, i + 3, chain, next - 1, st.aliases[from].parts);
      case Use(from, chain) =>
        BindingsAreSeen(t, i, "let", "=", st.aliases);
        BindingsAreSeen(t, i, "for", "in", st.aliases);
        WrittenAccessIsRead(t, i, chain, next - 1, st.aliases[from].parts);
      case Other =>
        BindingsAreSeen(t, i, "let", "=", st.aliases);
        BindingsAreSeen(t, i, "for", "in", st.aliases);
    }
  }

  lemma DeclarationIsRead(t: seq<Token>, i: nat, name: string, file: string)
    requires Declares(t, i, name, file)
    ensures t[i + 1].text == name && t[i + 5].text == file
  {
    var texts := ["let", name, "=", "json", "(", file, ")"];
    assert t[i + 1].text == texts[1] && t[i + 5].text == texts[5];
  }

  lemma ItemExists(t: seq<Token>, i: nat, aliases: map<string, Alias>) returns (item: Item, next: nat)
    requires i < |t|
    ensures SpellsItem(t, i, item, aliases, next)
  {
    var chain, end;
    DeclarationsAreSeen(t, i);
    BindingsAreSeen(t, i, "let", "=", aliases);
    BindingsAreSeen(t, i, "for", "in", aliases);
    if RootDeclarationAt(t, i) {
      item, next := Root(t[i + 1].text, t[i + 5].text), i + 1;
    } else if BindingAt(t, i, "let", "=", aliases) || BindingAt(t, i, "for", "in", aliases) {
      chain, end := ChainExists(t, i + 3);
      ChainsEndLater(t, i + 3, chain, end);
      item := if t[i].text == "let" then Let(t[i + 1].text, t[i + 3].text, chain)
        else For(t[i + 1].text, t[i + 3].text, chain);
      next := end + 1;
    } else if t[i].text in aliases {
      chain, end := ChainExists(t, i);
      ChainsEndLater(t, i, chain, end);
      item, next := Use(t[i].text, chain), end + 1;
    } else {
      item, next := Other, i + 1;
    }
  }

  lemma {:induction false} ChainsEndLater(t: seq<Token>, i: nat, chain: Chain, end: nat)
    requires SpellsChain(t, i, chain, end)
    ensures i <= end < |t|
    decreases |chain.links|
  {
    if chain.links != [] { ChainsEndLater(t, i + Width(chain.links[0]), chain.(links := chain.links[1..]), end); }
  }

  // ---- Documents ----

  /** The tokens from `i` on spell the document, one item after the other, and nothing is left. */
  ghost predicate SpellsDocument(t: seq<Token>, i: nat, doc: seq<Item>, st: State)
    decreases |doc|
  {
    if doc == [] then i == |t|
    else
      exists next ::
        && SpellsItem(t, i, doc[0], st.aliases, next)
        && SpellsDocument(t, next, doc[1..], Effect(doc[0], st))
  }

  /** What a document means, item by item. */
  function Meant(doc: seq<Item>, st: State): State {
    if doc == [] then st else Meant(doc[1..], Effect(doc[0], st))
  }

  /** Some use or other text comes when too many paths have been recorded. */
  predicate IsOverLimit(doc: seq<Item>, st: State) {
    doc != [] &&
    (((doc[0].Use? || doc[0].Other?) && |Effect(doc[0], st).paths| > MAX_PATHS)
     || IsOverLimit(doc[1..], Effect(doc[0], st)))
  }

  /** The scan of a spelled document ends with what the document means, unless it runs into the limit. */
  lemma {:induction false} ScanReadsDocument(t: seq<Token>, i: nat, doc: seq<Item>, st: State)
    requires SpellsDocument(t, i, doc, st)
    ensures ScanFrom(t, i, st) == if IsOverLimit(doc, st) then ScanTooComplex else Scanned(Meant(doc, st))
    decreases |doc|
  {
    if doc != [] {
      var next :| SpellsItem(t, i, doc[0], st.aliases, next) && SpellsDocument(t, next, doc[1..], Effect(doc[0], st));
      ItemIsRead(t, i, doc[0], st, next);
      ScanReadsDocument(t, next, doc[1..], Effect(doc[0], st));
    }
  }

  /** Every token list is a document. */
  lemma {:induction false} DocumentExists(t: seq<Token>, i: nat, st: State) returns (doc: seq<Item>)
    requires i <= |t|
    ensures SpellsDocument(t, i, doc, st)
    decreases |t| - i
  {
    doc := [];
    if i < |t| {
      var item, next := ItemExists(t, i, st.aliases);
      ItemsEndInside(t, i, item, st.aliases, next);
      var rest := DocumentExists(t, next, Effect(item, st));
      doc := [item] + rest;
      assert doc[1..] == rest;
      assert SpellsItem(t, i, doc[0], st.aliases, next) && SpellsDocument(t, next, doc[1..], Effect(doc[0], st));
    }
  }

  lemma ItemsEndInside(t: seq<Token>, i: nat, item: Item, aliases: map<string, Alias>, next: nat)
    requires SpellsItem(t, i, item, aliases, next)
    ensures i < next <= |t|
  {
    match item {
      case Let(_, _, chain) => ChainsEndLater(t, i + 3, chain, next - 1);
      case For(_, _, chain) => ChainsEndLater(t, i + 3, chain, next - 1);
      case Use(_, chain) => ChainsEndLater(t, i, chain, next - 1);
      case _ =>
    }
  }

  /** What the names stand for when the k-th item comes. */
  function Before(doc: seq<Item>, k: nat): State
    requires k <= |doc|
  {
    Meant(doc[..k], INITIAL)
  }

  /** What a name stands for before the k-th item: what the last item that gave it a meaning made of it. */
  function StandsFor(doc: seq<Item>, k: nat, name: string): Found<Alias>
    requires k <= |doc|
  {
    if k == 0 then Nowhere
    else
      var earlier := StandsFor(doc, k - 1, name);
      match doc[k - 1]
      case Root(bound, file) => if bound == name && IsReportFile(file) then Found(Alias([], 0)) else earlier
      case Let(bound, from, chain) =>
        if bound != name then earlier
        else (match StandsFor(doc, k - 1, from)
              case Nowhere => earlier
              case Found(base) => Found(Alias(base.parts + PartsOf(chain), base.arrayAt)))
      case For(bound, from, chain) =>
        if bound != name then earlier
        else (match StandsFor(doc, k - 1, from)
              case Nowhere => earlier
              case Found(base) => var parts := base.parts + PartsOf(chain); Found(Alias(parts, |parts|)))
      case _ => earlier
  }

  lemma {:induction false} MeantSnoc(doc: seq<Item>, k: nat, st: State)
    requires k < |doc|
    ensures Meant(doc[..k + 1], st) == Effect(doc[k], Meant(doc[..k], st))
  {
    MeaningSplits(doc[..k + 1], k, st);
    assert doc[..k + 1][..k] == doc[..k] && doc[..k + 1][k..] == [doc[k]];
    assert [doc[k]][1..] == [];
  }

  /** The scan knows every name as what it stands for, and no other. */
  lemma {:induction false} NamesAreKnown(doc: seq<Item>, k: nat, name: string)
    requires k <= |doc|
    ensures var aliases := Before(doc, k).aliases;
            StandsFor(doc, k, name) == if name in aliases then Found(aliases[name]) else Nowhere
  {
    if k > 0 {
      MeantSnoc(doc, k - 1, INITIAL);
      NamesAreKnown(doc, k - 1, name);
      if IsAccess(doc[k - 1]) { NamesAreKnown(doc, k - 1, doc[k - 1].from); }
    }
  }

  ghost predicate Extends(a: State, b: State) {
    (forall p | p in a.paths :: p in b.paths) && (forall d | d in a.diagnostics :: d in b.diagnostics)
  }

  lemma {:induction false} MeaningOnlyGrows(doc: seq<Item>, st: State)
    ensures Extends(st, Meant(doc, st))
  {
    if doc != [] { MeaningOnlyGrows(doc[1..], Effect(doc[0], st)); }
  }

  lemma {:induction false} MeaningSplits(doc: seq<Item>, k: nat, st: State)
    requires k <= |doc|
    ensures Meant(doc, st) == Meant(doc[k..], Meant(doc[..k], st))
  {
    if k == 0 {
      assert doc[0..] == doc;
    } else {
      MeaningSplits(doc[1..], k - 1, Effect(doc[0], st));
      assert doc[..k][1..] == doc[1..][..k - 1] && doc[1..][k - 1..] == doc[k..];
    }
  }

  /** The place an item of the document names, if its name stands for report data there. */
  ghost predicate Names(doc: seq<Item>, k: nat, target: Alias) {
    k < |doc| && IsAccess(doc[k]) &&
    match StandsFor(doc, k, doc[k].from)
    case Nowhere => false
    case Found(base) => target == Alias(base.parts + PartsOf(doc[k].chain), base.arrayAt)
  }

  /** The path that an access leaves behind. */
  function PathOf(item: Item, target: Alias): PathInfo {
    if item.For? then PathInfo(target.parts, |target.parts|, false)
      else PathInfo(target.parts, target.arrayAt, item.Use?)
  }

  /** Every access is recorded, a loop as iterated, and every name that is not in the source is complained of. */
  lemma AccessIsRecorded(doc: seq<Item>, k: nat, target: Alias)
    requires Names(doc, k, target)
    ensures target.parts != [] ==> PathOf(doc[k], target) in Meant(doc, INITIAL).paths
    ensures forall d | d in Complaints(doc[k].chain.ending) :: d in Meant(doc, INITIAL).diagnostics
  {
    var st := Before(doc, k);
    NamesAreKnown(doc, k, doc[k].from);
    MeaningSplits(doc, k, INITIAL);
    var rest := doc[k..];
    assert rest[0] == doc[k];
    EffectRecords(doc[k], st);
    MeaningOnlyGrows(rest[1..], Effect(doc[k], st));
  }

  lemma EffectRecords(item: Item, st: State)
    requires IsAccess(item) && item.from in st.aliases
    ensures var target := Target(st.aliases, item.from, item.chain);
            && (target.parts != [] ==> PathOf(item, target) in Effect(item, st).paths)
            && (forall d | d in Complaints(item.chain.ending) :: d in Effect(item, st).diagnostics)
  {
    var target := Target(st.aliases, item.from, item.chain);
    var p := PathOf(item, target);
    if target.parts != [] {
      assert Effect(item, st).paths == st.paths + [p];
      assert (st.paths + [p])[|st.paths|] == p;
    }
    assert Effect(item, st).diagnostics == st.diagnostics + Complaints(item.chain.ending);
  }

  /** Nothing else is recorded, and nothing else complained of. */
  lemma {:induction false} RecordedIsAccess(doc: seq<Item>, st: State)
    ensures forall p | p in Meant(doc, st).paths && p !in st.paths :: StemsFrom(doc, st, p)
    ensures forall d | d in Meant(doc, st).diagnostics && d !in st.diagnostics :: ComplainedOf(doc, d)
  {
    if doc != [] {
      var next := Effect(doc[0], st);
      RecordedIsAccess(doc[1..], next);
      forall p | p in Meant(doc, st).paths && p !in st.paths ensures StemsFrom(doc, st, p) {
        if p !in next.paths { LaterStem(doc, st, p); } else { FirstStem(doc, st, p); }
      }
      forall d | d in Meant(doc, st).diagnostics && d !in st.diagnostics ensures ComplainedOf(doc, d) {
        if d in next.diagnostics {
          assert doc[0] in doc && IsAccess(doc[0]) && d in Complaints(doc[0].chain.ending);
        } else {
          assert ComplainedOf(doc[1..], d);
          var item :| item in doc[1..] && IsAccess(item) && d in Complaints(item.chain.ending);
          assert item in doc;
        }
      }
    }
  }

  ghost predicate StemsFrom(doc: seq<Item>, st: State, p: PathInfo) {
    exists k | 0 <= k < |doc| :: IsSource(doc, st, k, p)
  }

  ghost predicate IsSource(doc: seq<Item>, st: State, k: nat, p: PathInfo)
    requires k < |doc|
  {
    var before := Meant(doc[..k], st);
    && IsAccess(doc[k]) && doc[k].from in before.aliases
    && p == PathOf(doc[k], Target(before.aliases, doc[k].from, doc[k].chain))
  }

  ghost predicate ComplainedOf(doc: seq<Item>, d: Diagnostic) {
    exists item :: item in doc && IsAccess(item) && d in Complaints(item.chain.ending)
  }

  /** So every path of a document is that of an access whose name stands for report data where it is written. */
  lemma RecordedIsNamed(doc: seq<Item>, p: PathInfo) returns (k: nat, target: Alias)
    requires p in Meant(doc, INITIAL).paths
    ensures Names(doc, k, target) && p == PathOf(doc[k], target)
  {
    RecordedIsAccess(doc, INITIAL);
    k :| k < |doc| && IsSource(doc, INITIAL, k, p);
    NamesAreKnown(doc, k, doc[k].from);
    target := Target(Before(doc, k).aliases, doc[k].from, doc[k].chain);
  }

  lemma FirstStem(doc: seq<Item>, st: State, p: PathInfo)
    requires doc != [] && p in Effect(doc[0], st).paths && p !in st.paths
    ensures StemsFrom(doc, st, p)
  {
    assert Meant(doc[..0], st) == st;
    assert IsSource(doc, st, 0, p);
  }

  lemma LaterStem(doc: seq<Item>, st: State, p: PathInfo)
    requires doc != [] && StemsFrom(doc[1..], Effect(doc[0], st), p)
    ensures StemsFrom(doc, st, p)
  {
    var k :| 0 <= k < |doc| - 1 && IsSource(doc[1..], Effect(doc[0], st), k, p);
    assert doc[..k + 1][1..] == doc[1..][..k];
    assert IsSource(doc, st, k + 1, p);
  }

  // ---- Contracts of documents ----

  /** The source reads as this document. */
  ghost predicate ReadsAs(source: string, decode: string -> Decoded, doc: seq<Item>) {
    LexFrom(source, decode, 0, []).Tokens? && SpellsDocument(LexFrom(source, decode, 0, []).tokens, 0, doc, INITIAL)
  }

  /** Every source that can be lexed reads as a document. */
  lemma EverySourceReads(source: string, decode: string -> Decoded) returns (doc: seq<Item>)
    requires LexFrom(source, decode, 0, []).Tokens?
    ensures ReadsAs(source, decode, doc)
  {
    doc := DocumentExists(LexFrom(source, decode, 0, []).tokens, 0, INITIAL);
  }

  /** A contract's paths and diagnostics are what the document means. */
  lemma ContractMeansDocument(source: string, decode: string -> Decoded, sample: map<string, Value>, doc: seq<Item>)
    requires Analyze(source, decode, sample).Contract? && ReadsAs(source, decode, doc)
    ensures Analyze(source, decode, sample).paths == Meant(doc, INITIAL).paths
    ensures Analyze(source, decode, sample).diagnostics == Meant(doc, INITIAL).diagnostics
  {
    ScanReadsDocument(LexFrom(source, decode, 0, []).tokens, 0, doc, INITIAL);
  }

  /**
   Data that conforms to the contract can be followed along every access, binding and
   loop that is written in the source, and a loop meets an array. If the analysis has no
   complaints, no access is left unread.
   */
  lemma ContractIsSafe(source: string, decode: string -> Decoded, sample: map<string, Value>, d: Value,
                       doc: seq<Item>, k: nat, target: Alias)
    requires Analyze(source, decode, sample).Contract? && ReadsAs(source, decode, doc) && Names(doc, k, target)
    requires Conforms(Analyze(source, decode, sample).schema, d)
    ensures Follows(d, BuildTree(Analyze(source, decode, sample).paths), target.parts)
    ensures doc[k].For? ==> Covers(BuildTree(Analyze(source, decode, sample).paths), target.parts, |target.parts|)
    ensures Analyze(source, decode, sample).diagnostics == [] ==> Complaints(doc[k].chain.ending) == []
  {
    ContractMeansDocument(source, decode, sample, doc);
    AccessIsRecorded(doc, k, target);
    var paths, p := Analyze(source, decode, sample).paths, PathOf(doc[k], target);
    if target.parts != [] {
      RecordedPathIsSafe(source, decode, sample, d, p);
      TreeCoversEveryPath(paths, p);
    }
    var complaints := Complaints(doc[k].chain.ending);
    assert complaints != [] ==> complaints[0] in Meant(doc, INITIAL).diagnostics;
  }
}
