/**
 The tokenizer. A source is a sequence of bytes, one `char` each.

 `decode` stands for decoding a JSON string literal, and is any function at all:
 nothing below depends on what it accepts.
 */
module ContractLexer {

  datatype Kind = Identifier | StringToken | Symbol
  datatype Token = Token(kind: Kind, text: string, offset: nat)
  datatype Decoded = Decoded(text: string) | Undecodable

  /** `OutOfRange` is the run-time failure of slicing beyond the end of the source. */
  datatype LexResult =
    | Tokens(tokens: seq<Token>)
    | TooComplex
    | UnterminatedComment(at: nat)
    | UnterminatedString(at: nat)
    | OutOfRange(at: nat)

  const MAX_TOKENS := 100000

  predicate IsSpace(c: char) {
    c in {' ', '\t', '\n', '\r', '\U{0B}', '\U{0C}', '\U{85}', '\U{A0}'}
  }

  predicate IsIdentifierStart(c: char) {
    c == '_' || 'a' <= c <= 'z' || 'A' <= c <= 'Z'
  }

  predicate IsIdentifierPart(c: char) {
    IsIdentifierStart(c) || '0' <= c <= '9' || c == '-'
  }

  predicate LineCommentAt(s: string, i: nat) {
    i + 1 < |s| && s[i] == '/' && s[i + 1] == '/'
  }

  predicate BlockCommentAt(s: string, i: nat) {
    i + 1 < |s| && s[i] == '/' && s[i + 1] == '*'
  }

  predicate BlockEndAt(s: string, i: nat) {
    i + 1 < |s| && s[i] == '*' && s[i + 1] == '/'
  }

  function LineEnd(s: string, i: nat): (e: nat)
    requires i <= |s|
    ensures i <= e <= |s|
    decreases |s| - i
  {
    if i == |s| || s[i] == '\n' then i else LineEnd(s, i + 1)
  }

  datatype Scan = Ended(at: nat) | RanOff

  /** Where the comment nested `depth` deep at `i` ends. */
  function BlockEnd(s: string, i: nat, depth: nat): (e: Scan)
    requires i <= |s|
    ensures e.Ended? ==> i <= e.at <= |s|
    decreases |s| - i
  {
    if depth == 0 then Ended(i)
    else if i == |s| then RanOff
    else if BlockCommentAt(s, i) then BlockEnd(s, i + 2, depth + 1)
    else if BlockEndAt(s, i) then BlockEnd(s, i + 2, depth - 1)
    else BlockEnd(s, i + 1, depth)
  }

  function IdentifierEnd(s: string, i: nat): (e: nat)
    requires i <= |s|
    ensures i <= e <= |s|
    ensures i < |s| && IsIdentifierPart(s[i]) ==> i < e
    decreases |s| - i
  {
    if i == |s| || !IsIdentifierPart(s[i]) then i else IdentifierEnd(s, i + 1)
  }

  /** The look-ahead after an escape: the next quote or backslash, or the end. */
  function EscapeStop(s: string, j: nat): (e: nat)
    requires j <= |s|
    ensures j <= e <= |s|
    ensures e < |s| ==> s[e] in {'"', '\\'}
    decreases |s| - j
  {
    if j == |s| || s[j] in {'"', '\\'} then j else EscapeStop(s, j + 1)
  }

  datatype Literal = Closed(quote: nat, text: string) | Unclosed | BeyondEnd

  /** The literal opened at `start`, read up to `i`. */
  function ScanLiteral(s: string, decode: string -> Decoded, start: nat, i: nat, text: string): (l: Literal)
    requires start < i <= |s|
    ensures l.Closed? ==> i <= l.quote < |s|
    decreases |s| - i
  {
    if i == |s| then Unclosed
    else if s[i] == '"' then Closed(i, text)
    else if s[i] == '\\' && i + 1 < |s| then
      var j := EscapeStop(s, i + 2);
      if j == |s| then BeyondEnd
      else if decode(s[start..j + 1]).Decoded? && s[j] == '"' then Closed(j, decode(s[start..j + 1]).text)
      else ScanLiteral(s, decode, start, i + 2, text + [s[i + 1]])
    else ScanLiteral(s, decode, start, i + 1, text + [s[i]])
  }

  /** The tokens from `i` on, after those in `acc`. */
  function LexFrom(s: string, decode: string -> Decoded, i: nat, acc: seq<Token>): LexResult
    requires i <= |s|
    decreases |s| - i
  {
    if i == |s| then Tokens(acc)
    else if |acc| > MAX_TOKENS then TooComplex
    else if IsSpace(s[i]) then LexFrom(s, decode, i + 1, acc)
    else if LineCommentAt(s, i) then LexFrom(s, decode, LineEnd(s, i + 2), acc)
    else if BlockCommentAt(s, i) then
      var e := BlockEnd(s, i + 2, 1);
      if e.Ended? then LexFrom(s, decode, e.at, acc) else UnterminatedComment(i)
    else if s[i] == '"' then
      match ScanLiteral(s, decode, i, i + 1, "")
      case Closed(quote, text) => LexFrom(s, decode, quote + 1, acc + [Token(StringToken, text, i)])
      case Unclosed => UnterminatedString(i)
      case BeyondEnd => OutOfRange(i)
    else if IsIdentifierStart(s[i]) then
      var e := IdentifierEnd(s, i);
      LexFrom(s, decode, e, acc + [Token(Identifier, s[i..e], i)])
    else
      LexFrom(s, decode, i + 1, acc + [Token(Symbol, s[i..i + 1], i)])
  }

  /** The loop over the bytes. */
  method Lex(s: string, decode: string -> Decoded) returns (r: LexResult)
    ensures r == LexFrom(s, decode, 0, [])
  {
    var result, i := [], 0;
    while i < |s|
      invariant i <= |s|
      invariant LexFrom(s, decode, i, result) == LexFrom(s, decode, 0, [])
    {
      if |result| > MAX_TOKENS {
        return TooComplex;
      }
      if IsSpace(s[i]) {
        i := i + 1;
        continue;
      }
      if LineCommentAt(s, i) {
        ghost var body := i + 2;
        i := i + 2;
        while i < |s| && s[i] != '\n'
          invariant body <= i <= |s|
          invariant LineEnd(s, i) == LineEnd(s, body)
        {
          i := i + 1;
        }
        continue;
      }
      if BlockCommentAt(s, i) {
        var start := i;
        i := i + 2;
        var depth := 1;
        while i < |s| && depth > 0
          invariant start + 2 <= i <= |s|
          invariant BlockEnd(s, i, depth) == BlockEnd(s, start + 2, 1)
        {
          if BlockCommentAt(s, i) {
            depth, i := depth + 1, i + 2;
          } else if BlockEndAt(s, i) {
            depth, i := depth - 1, i + 2;
          } else {
            i := i + 1;
          }
        }
        if depth != 0 {
          return UnterminatedComment(start);
        }
        continue;
      }
      if s[i] == '"' {
        var literal := LexLiteral(s, decode, i);
        match literal {
          case BeyondEnd => return OutOfRange(i);
          case Unclosed => return UnterminatedString(i);
          case Closed(quote, text) =>
            result := result + [Token(StringToken, text, i)];
            i := quote + 1;
        }
        continue;
      }
      if IsIdentifierStart(s[i]) {
        var start := i;
        while i < |s| && IsIdentifierPart(s[i])
          invariant start <= i <= |s|
          invariant IdentifierEnd(s, i) == IdentifierEnd(s, start)
        {
          i := i + 1;
        }
        result := result + [Token(Identifier, s[start..i], start)];
        continue;
      }
      result := result + [Token(Symbol, s[i..i + 1], i)];
      i := i + 1;
    }
    r := Tokens(result);
  }

  method LexLiteral(s: string, decode: string -> Decoded, start: nat) returns (l: Literal)
    requires start < |s|
    ensures l == ScanLiteral(s, decode, start, start + 1, "")
  {
    var i, value := start + 1, "";
    while i < |s| && s[i] != '"'
      invariant start < i <= |s|
      invariant ScanLiteral(s, decode, start, i, value) == ScanLiteral(s, decode, start, start + 1, "")
    {
      if s[i] == '\\' && i + 1 < |s| {
        var j := i + 2;
        while j < |s| && s[j] != '"' && s[j] != '\\'
          invariant i + 2 <= j <= |s|
          invariant EscapeStop(s, j) == EscapeStop(s, i + 2)
        {
          j := j + 1;
        }
        if j == |s| {
          return BeyondEnd;
        }
        var decoded := decode(s[start..j + 1]);
        if decoded.Decoded? && s[j] == '"' {
          return Closed(j, decoded.text);
        }
        value := value + [s[i + 1]];
        i := i + 2;
      } else {
        value := value + [s[i]];
        i := i + 1;
      }
    }
    l := if i == |s| then Unclosed else Closed(i, value);
  }

  // ---- What a literal says ----

  /** What may stand between the quotes: quotes are escaped, and every escape has its character. */
  predicate IsInner(w: string) {
    w == "" ||
    (w[0] != '"' && if w[0] == '\\' then |w| > 1 && IsInner(w[2..]) else IsInner(w[1..]))
  }

  /** The characters that are left when every escaping backslash is dropped. */
  function Unescaped(w: string): string {
    if w == "" then ""
    else if w[0] == '\\' && |w| > 1 then [w[1]] + Unescaped(w[2..])
    else [w[0]] + Unescaped(w[1..])
  }

  /**
   A literal as it stands in the source, quotes included, and what it says: its characters
   if none is escaped; otherwise what the whole of it decodes to, or, if it does not decode,
   its characters without the escaping backslashes.
   */
  ghost predicate Says(literal: string, decode: string -> Decoded, text: string) {
    && |literal| >= 2 && literal[0] == '"' && literal[|literal| - 1] == '"'
    && var inner := literal[1..|literal| - 1];
       && IsInner(inner)
       && ('\\' !in inner ==> text == inner)
       && ('\\' in inner ==>
             match decode(literal)
             case Decoded(decoded) => text == decoded
             case Undecodable => text == Unescaped(inner))
  }

  /** A text written as a literal. */
  function Escaped(text: string): string {
    if text == "" then ""
    else (if text[0] in {'"', '\\'} then ['\\', text[0]] else [text[0]]) + Escaped(text[1..])
  }

  /** Every text can be written, and dropping the backslashes gives it back. */
  lemma {:induction false} UnescapedEscaped(text: string)
    ensures IsInner(Escaped(text)) && Unescaped(Escaped(text)) == text
  {
    if text != "" {
      UnescapedEscaped(text[1..]);
      var first := if text[0] in {'"', '\\'} then ['\\', text[0]] else [text[0]];
      assert Escaped(text) == first + Escaped(text[1..]);
      assert Escaped(text)[|first|..] == Escaped(text[1..]);
    }
  }

  lemma {:induction false} UnescapedIsPlain(w: string)
    requires '\\' !in w
    ensures Unescaped(w) == w
  {
    if w != "" { UnescapedIsPlain(w[1..]); }
  }

  /** One more character, or one more escape, at the end. */
  lemma {:induction false} InnerGrows(w: string, more: string)
    requires IsInner(w)
    requires (|more| == 1 && more[0] !in {'"', '\\'}) || (|more| == 2 && more[0] == '\\')
    ensures IsInner(w + more) && Unescaped(w + more) == Unescaped(w) + [more[|more| - 1]]
  {
    if w == "" {
      assert w + more == more && more[|more|..] == "";
    } else {
      var k := if w[0] == '\\' then 2 else 1;
      InnerGrows(w[k..], more);
      assert (w + more)[k..] == w[k..] + more;
    }
  }

  /** Of a literal read up to `i`: the decoding of the whole was tried at its last escape, if that came before. */
  ghost predicate ReadUpTo(s: string, decode: string -> Decoded, start: nat, i: nat, text: string) {
    && start < i <= |s| && s[start] == '"'
    && var inner := s[start + 1..i];
       && IsInner(inner) && text == Unescaped(inner)
       && var j := EscapeStop(s, i);
          '\\' in inner && j < |s| && s[j] == '"' ==> decode(s[start..j + 1]).Undecodable?
  }

  lemma ReadOneMore(s: string, decode: string -> Decoded, start: nat, i: nat, text: string)
    requires ReadUpTo(s, decode, start, i, text) && i < |s| && s[i] !in {'"', '\\'}
    ensures ReadUpTo(s, decode, start, i + 1, text + [s[i]])
  {
    assert s[start + 1..i + 1] == s[start + 1..i] + [s[i]];
    InnerGrows(s[start + 1..i], [s[i]]);
  }

  lemma ReadOneEscape(s: string, decode: string -> Decoded, start: nat, i: nat, text: string)
    requires ReadUpTo(s, decode, start, i, text) && EscapeAt(s, i)
    requires var j := EscapeStop(s, i + 2); j < |s| && s[j] == '"' ==> decode(s[start..j + 1]).Undecodable?
    ensures ReadUpTo(s, decode, start, i + 2, text + [s[i + 1]])
  {
    assert s[start + 1..i + 2] == s[start + 1..i] + s[i..i + 2];
    InnerGrows(s[start + 1..i], s[i..i + 2]);
  }

  lemma Quoted(s: string, start: nat, j: nat)
    requires start < j < |s|
    ensures |s[start..j + 1]| == j + 1 - start && s[start..j + 1][0] == s[start] && s[start..j + 1][j - start] == s[j]
    ensures s[start..j + 1][1..j - start] == s[start + 1..j]
  {
    assert s[start..j + 1] == [s[start]] + s[start + 1..j] + [s[j]];
  }

  lemma LiteralCloses(s: string, decode: string -> Decoded, start: nat, i: nat, text: string)
    requires ReadUpTo(s, decode, start, i, text) && i < |s| && s[i] == '"'
    ensures Says(s[start..i + 1], decode, text)
  {
    var inner := s[start + 1..i];
    Quoted(s, start, i);
    if '\\' !in inner { UnescapedIsPlain(inner); }
  }

  /** The last escape of a literal that decodes as a whole. */
  lemma LiteralDecodes(s: string, decode: string -> Decoded, start: nat, i: nat, j: nat, text: string)
    requires start < i && i + 2 <= j < |s| && s[start] == '"' && IsInner(s[start + 1..i]) && s[i] == '\\'
    requires s[j] == '"' && forall k | i + 2 <= k < j :: s[k] !in {'"', '\\'}
    requires decode(s[start..j + 1]) == Decoded(text)
    ensures Says(s[start..j + 1], decode, text)
  {
    assert s[start + 1..i + 2] == s[start + 1..i] + s[i..i + 2];
    InnerGrows(s[start + 1..i], s[i..i + 2]);
    PlainTail(s, start, i + 2, j);
    Quoted(s, start, j);
    assert s[start + 1..j][i - start - 1] == '\\';
  }

  lemma {:induction false} PlainTail(s: string, start: nat, i: nat, j: nat)
    requires start < i <= j <= |s| && IsInner(s[start + 1..i]) && forall k | i <= k < j :: s[k] !in {'"', '\\'}
    ensures IsInner(s[start + 1..j])
    decreases j
  {
    if i < j {
      PlainTail(s, start, i, j - 1);
      InnerGrows(s[start + 1..j - 1], [s[j - 1]]);
      assert s[start + 1..j] == s[start + 1..j - 1] + [s[j - 1]];
    }
  }

  /** The literal goes on: with a character, or with an escape after which it does not decode as a whole. */
  predicate GoesOn(s: string, decode: string -> Decoded, start: nat, i: nat)
    requires start < i <= |s|
  {
    && i < |s| && s[i] != '"'
    && (s[i] == '\\' ==>
          && i + 1 < |s|
          && var j := EscapeStop(s, i + 2);
             j < |s| && !(decode(s[start..j + 1]).Decoded? && s[j] == '"'))
  }

  /** Whatever a literal is closed with, its text is what it says. */
  lemma {:induction false} LiteralSaysText(s: string, decode: string -> Decoded, start: nat, i: nat, text: string)
    requires ReadUpTo(s, decode, start, i, text)
    ensures var l := ScanLiteral(s, decode, start, i, text);
            l.Closed? ==> Says(s[start..l.quote + 1], decode, l.text)
    decreases |s| - i
  {
    if GoesOn(s, decode, start, i) {
      var next := LiteralGoesOn(s, decode, start, i, text);
      LiteralSaysText(s, decode, start, next, text + [s[next - 1]]);
    } else {
      LiteralStops(s, decode, start, i, text);
    }
  }

  lemma LiteralStops(s: string, decode: string -> Decoded, start: nat, i: nat, text: string)
    requires ReadUpTo(s, decode, start, i, text) && !GoesOn(s, decode, start, i)
    ensures var l := ScanLiteral(s, decode, start, i, text);
            l.Closed? ==> Says(s[start..l.quote + 1], decode, l.text)
  {
    var l := WhereItStops(s, decode, start, i, text);
    if l.Closed? {
      if l.quote == i {
        LiteralCloses(s, decode, start, i, text);
      } else {
        LiteralDecodes(s, decode, start, i, l.quote, l.text);
      }
    }
  }

  /** At its closing quote, or with the last escape of a literal that decodes. */
  lemma WhereItStops(s: string, decode: string -> Decoded, start: nat, i: nat, text: string) returns (l: Literal)
    requires start < i <= |s| && !GoesOn(s, decode, start, i)
    ensures l == ScanLiteral(s, decode, start, i, text)
    ensures l.Closed? ==> s[l.quote] == '"' && if l.quote == i then l.text == text
                            else && s[i] == '\\' && i + 2 <= l.quote && decode(s[start..l.quote + 1]) == Decoded(l.text)
                                 && (forall k | i + 2 <= k < l.quote :: s[k] !in {'"', '\\'})
  {
    l := ScanLiteral(s, decode, start, i, text);
    if EscapeAt(s, i) { EscapeStopIsNext(s, i + 2); }
  }

  lemma LiteralGoesOn(s: string, decode: string -> Decoded, start: nat, i: nat, text: string) returns (next: nat)
    requires ReadUpTo(s, decode, start, i, text) && GoesOn(s, decode, start, i)
    ensures next == (if EscapeAt(s, i) then i + 2 else i + 1)
    ensures ReadUpTo(s, decode, start, next, text + [s[next - 1]])
    ensures ScanLiteral(s, decode, start, i, text) == ScanLiteral(s, decode, start, next, text + [s[next - 1]])
  {
    next := if EscapeAt(s, i) then i + 2 else i + 1;
    if EscapeAt(s, i) {
      ReadOneEscape(s, decode, start, i, text);
    } else {
      ReadOneMore(s, decode, start, i, text);
    }
  }

  // ---- Where things end ----

  lemma {:induction false} EscapeStopIsNext(s: string, j: nat)
    requires j <= |s|
    ensures forall k | j <= k < EscapeStop(s, j) :: s[k] !in {'"', '\\'}
    decreases |s| - j
  {
    if j < |s| && s[j] !in {'"', '\\'} { EscapeStopIsNext(s, j + 1); }
  }

  /** A line comment goes on to the end of its line. */
  lemma {:induction false} LineEndIsNext(s: string, i: nat)
    requires i <= |s|
    ensures var e := LineEnd(s, i); (forall k | i <= k < e :: s[k] != '\n') && (e < |s| ==> s[e] == '\n')
    decreases |s| - i
  {
    if i < |s| && s[i] != '\n' { LineEndIsNext(s, i + 1); }
  }

  /** All that follows is part of the identifier, up to what is not. */
  ghost predicate IsLongest(s: string, i: nat, e: nat) {
    i < e <= |s| && (forall k | i <= k < e :: IsIdentifierPart(s[k])) && (e < |s| ==> !IsIdentifierPart(s[e]))
  }

  lemma {:induction false} IdentifierIsLongest(s: string, i: nat)
    requires i < |s| && IsIdentifierPart(s[i])
    ensures IsLongest(s, i, IdentifierEnd(s, i))
    decreases |s| - i
  {
    if i + 1 < |s| && IsIdentifierPart(s[i + 1]) { IdentifierIsLongest(s, i + 1); }
  }

  // ---- Comments nest ----

  /** What a block comment contains: characters, and further comments. */
  datatype Remark = Nothing | Then(c: char, rest: Remark) | Nested(inner: Remark, rest: Remark)

  /** The remark is written from `i` to `e`; where an opening or closing mark stands it is taken for one. */
  ghost predicate Writes(s: string, i: nat, r: Remark, e: nat)
    decreases r, 1
  {
    match r
    case Nothing => i == e
    case Then(c, rest) =>
      i < |s| && s[i] == c && !BlockCommentAt(s, i) && !BlockEndAt(s, i) && Writes(s, i + 1, rest, e)
    case Nested(_, _) => exists m: nat :: Encloses(s, i, r, m, e)
  }

  /** A comment opens at `i`, closes at `m`, and the rest follows it. */
  ghost predicate Encloses(s: string, i: nat, r: Remark, m: nat, e: nat)
    requires r.Nested?
    decreases r, 0
  {
    BlockCommentAt(s, i) && Writes(s, i + 2, r.inner, m) && BlockEndAt(s, m) && Writes(s, m + 2, r.rest, e)
  }

  /** The remark is written from `i` on, and the mark after it ends at `e`. */
  ghost predicate ClosesAfter(s: string, i: nat, r: Remark, e: nat) {
    e >= 2 && Writes(s, i, r, e - 2) && BlockEndAt(s, e - 2)
  }

  lemma {:induction false} RemarkFound(s: string, i: nat, depth: nat) returns (r: Remark, m: nat)
    requires i <= |s| && depth > 0 && BlockEnd(s, i, depth).Ended?
    ensures Writes(s, i, r, m) && BlockEndAt(s, m) && i <= m
    ensures BlockEnd(s, m + 2, depth - 1) == BlockEnd(s, i, depth)
    decreases |s| - i
  {
    if BlockCommentAt(s, i) {
      var inner, k := RemarkFound(s, i + 2, depth + 1);
      var rest;
      rest, m := RemarkFound(s, k + 2, depth);
      r := Nested(inner, rest);
      assert Encloses(s, i, r, k, m);
    } else if BlockEndAt(s, i) {
      r, m := Nothing, i;
    } else {
      var rest;
      rest, m := RemarkFound(s, i + 1, depth);
      r := Then(s[i], rest);
    }
  }

  lemma {:induction false} RemarkIsSkipped(s: string, i: nat, r: Remark, e: nat, depth: nat)
    requires i <= |s| && depth > 0 && Writes(s, i, r, e)
    ensures i <= e <= |s| && BlockEnd(s, i, depth) == BlockEnd(s, e, depth)
    decreases r
  {
    match r
    case Nothing =>
    case Then(_, rest) => RemarkIsSkipped(s, i + 1, rest, e, depth);
    case Nested(inner, rest) =>
      var m: nat :| Encloses(s, i, r, m, e);
      RemarkIsSkipped(s, i + 2, inner, m, depth + 1);
      RemarkIsSkipped(s, m + 2, rest, e, depth);
  }

  /** A block comment ends at the mark that closes it, with all comments inside it closed before. */
  lemma CommentsNest(s: string, i: nat, e: nat)
    requires i <= |s|
    ensures BlockEnd(s, i, 1) == Ended(e) <==> exists r :: ClosesAfter(s, i, r, e)
  {
    if BlockEnd(s, i, 1) == Ended(e) {
      var r, m := RemarkFound(s, i, 1);
      assert ClosesAfter(s, i, r, e);
    }
    if exists r :: ClosesAfter(s, i, r, e) {
      var r :| ClosesAfter(s, i, r, e);
      RemarkIsSkipped(s, i, r, e - 2, 1);
    }
  }

  // ---- Offsets and slices ----

  /** Offsets strictly increase, and identifiers and symbols are what stands at their offset. */
  ghost predicate Faithful(s: string, tokens: seq<Token>, upTo: nat) {
    && (forall k | 0 <= k < |tokens| ::
          && tokens[k].offset < upTo
          && (tokens[k].kind != StringToken ==>
                && tokens[k].text != ""
                && tokens[k].offset + |tokens[k].text| <= upTo <= |s|
                && s[tokens[k].offset..tokens[k].offset + |tokens[k].text|] == tokens[k].text))
    && (forall j, k | 0 <= j < k < |tokens| ::
          tokens[j].offset < tokens[k].offset
          && (tokens[j].kind != StringToken ==> tokens[j].offset + |tokens[j].text| <= tokens[k].offset))
  }

  lemma FaithfulLater(s: string, tokens: seq<Token>, i: nat, e: nat)
    requires Faithful(s, tokens, i) && i <= e <= |s|
    ensures Faithful(s, tokens, e)
  {}

  lemma FaithfulAppend(s: string, tokens: seq<Token>, i: nat, t: Token, e: nat)
    requires Faithful(s, tokens, i) && i < e <= |s| && t.offset == i
    requires t.kind != StringToken ==> t.text == s[i..e]
    ensures Faithful(s, tokens + [t], e)
  {}

  lemma {:induction false} TokensAreFaithful(s: string, decode: string -> Decoded, i: nat, acc: seq<Token>)
    requires i <= |s| && Faithful(s, acc, i)
    ensures LexFrom(s, decode, i, acc).Tokens? ==> Faithful(s, LexFrom(s, decode, i, acc).tokens, |s|)
    decreases |s| - i
  {
    if i == |s| || |acc| > MAX_TOKENS {
    } else if IsSpace(s[i]) {
      FaithfulLater(s, acc, i, i + 1);
      TokensAreFaithful(s, decode, i + 1, acc);
    } else if LineCommentAt(s, i) {
      FaithfulLater(s, acc, i, LineEnd(s, i + 2));
      TokensAreFaithful(s, decode, LineEnd(s, i + 2), acc);
    } else if BlockCommentAt(s, i) {
      var e := BlockEnd(s, i + 2, 1);
      if e.Ended? {
        FaithfulLater(s, acc, i, e.at);
        TokensAreFaithful(s, decode, e.at, acc);
      }
    } else if s[i] == '"' {
      var l := ScanLiteral(s, decode, i, i + 1, "");
      if l.Closed? {
        FaithfulAppend(s, acc, i, Token(StringToken, l.text, i), l.quote + 1);
        TokensAreFaithful(s, decode, l.quote + 1, acc + [Token(StringToken, l.text, i)]);
      }
    } else {
      var ident := IsIdentifierStart(s[i]);
      var e := if ident then IdentifierEnd(s, i) else i + 1;
      var t := Token(if ident then Identifier else Symbol, s[i..e], i);
      FaithfulAppend(s, acc, i, t, e);
      TokensAreFaithful(s, decode, e, acc + [t]);
    }
  }

  // ---- The look-ahead that slices beyond the end ----

  predicate EscapeAt(s: string, i: nat) {
    i + 1 < |s| && s[i] == '\\'
  }

  /** No closing quote, escaped characters skipped. */
  predicate UnclosedFrom(s: string, i: nat)
    requires i <= |s|
    decreases |s| - i
  {
    i == |s| || (s[i] != '"' && UnclosedFrom(s, if EscapeAt(s, i) then i + 2 else i + 1))
  }

  predicate EscapedFrom(s: string, i: nat)
    requires i <= |s|
    decreases |s| - i
  {
    i < |s| && s[i] != '"' && (EscapeAt(s, i) || EscapedFrom(s, i + 1))
  }

  /** The source ends in a backslash that escapes nothing. */
  predicate EndsInBackslash(s: string, i: nat)
    requires i <= |s|
    decreases |s| - i
  {
    i < |s| && s[i] != '"' &&
    (if i + 1 == |s| then s[i] == '\\' else EndsInBackslash(s, if EscapeAt(s, i) then i + 2 else i + 1))
  }

  lemma {:induction false} EscapeStopMeans(s: string, j: nat)
    requires j <= |s|
    ensures EscapeStop(s, j) == |s| ==> UnclosedFrom(s, j) && !EndsInBackslash(s, j)
    ensures EscapeStop(s, j) < |s| && UnclosedFrom(s, j) && !EndsInBackslash(s, j) ==> EscapedFrom(s, j)
    decreases |s| - j
  {
    if j < |s| && s[j] !in {'"', '\\'} { EscapeStopMeans(s, j + 1); }
  }

  /** Exactly which literals make the tokenizer slice beyond the end; closed ones never do. */
  lemma {:induction false} SlicesBeyondEndWhen(s: string, decode: string -> Decoded, start: nat, i: nat, text: string)
    requires start < i <= |s|
    ensures ScanLiteral(s, decode, start, i, text).BeyondEnd? <==>
            UnclosedFrom(s, i) && EscapedFrom(s, i) && !EndsInBackslash(s, i)
    decreases |s| - i
  {
    if i < |s| && s[i] != '"' {
      if EscapeAt(s, i) {
        var j := EscapeStop(s, i + 2);
        EscapeStopMeans(s, i + 2);
        QuoteCloses(s, i + 2);
        if j < |s| { SlicesBeyondEndWhen(s, decode, start, i + 2, text + [s[i + 1]]); }
      } else {
        SlicesBeyondEndWhen(s, decode, start, i + 1, text + [s[i]]);
      }
    }
  }

  lemma {:induction false} QuoteCloses(s: string, j: nat)
    requires j <= |s|
    ensures EscapeStop(s, j) < |s| && s[EscapeStop(s, j)] == '"' ==> !UnclosedFrom(s, j)
    decreases |s| - j
  {
    if j < |s| && s[j] !in {'"', '\\'} { QuoteCloses(s, j + 1); }
  }

  /** The shortest such source: a quote, a backslash and one more character. */
  lemma UnclosedEscapeFails(decode: string -> Decoded)
    ensures LexFrom("\"\\a", decode, 0, []) == OutOfRange(0)
  {
    var s := "\"\\a";
    assert EscapeStop(s, 3) == 3;
    assert ScanLiteral(s, decode, 0, 1, "").BeyondEnd?;
  }

  // ---- Comment blindness ----

  /** One past the quote that closes a literal, escapes skipped; the end of the source if none does. */
  function LiteralEnd(s: string, i: nat): (e: nat)
    requires i <= |s|
    ensures i <= e <= |s|
    decreases |s| - i
  {
    if i == |s| then i
    else if s[i] == '"' then i + 1
    else if s[i] == '\\' && i + 1 < |s| then LiteralEnd(s, i + 2)
    else LiteralEnd(s, i + 1)
  }

  function CommentEnd(s: string, i: nat): (e: nat)
    requires LineCommentAt(s, i) || BlockCommentAt(s, i)
    ensures i + 2 <= e <= |s|
  {
    if LineCommentAt(s, i) then LineEnd(s, i + 2)
    else var e := BlockEnd(s, i + 2, 1); if e.Ended? then e.at else |s|
  }

  function Spaces(n: nat): string {
    seq(n, _ => ' ')
  }

  /** The source from `i` on with every comment, nested or not, overwritten by spaces; literals are left alone. */
  function Blank(s: string, i: nat): (b: string)
    requires i <= |s|
    ensures |b| == |s| - i
    decreases |s| - i
  {
    if i == |s| then ""
    else if LineCommentAt(s, i) || BlockCommentAt(s, i) then
      Spaces(CommentEnd(s, i) - i) + Blank(s, CommentEnd(s, i))
    else if s[i] == '"' then
      s[i..LiteralEnd(s, i + 1)] + Blank(s, LiteralEnd(s, i + 1))
    else [s[i]] + Blank(s, i + 1)
  }

  lemma FirstBlank(s: string, i: nat)
    requires i < |s|
    ensures Blank(s, i)[0] == s[i] || Blank(s, i)[0] == ' '
    ensures !LineCommentAt(s, i) && !BlockCommentAt(s, i) ==> Blank(s, i)[0] == s[i]
  {}

  /** `b` agrees with the blanked source from a token boundary `i` on. */
  ghost predicate Agrees(s: string, b: string, i: nat) {
    i <= |s| == |b| && b[i..] == Blank(s, i)
  }

  lemma AgreesLater(s: string, b: string, i: nat, e: nat, head: string)
    requires Agrees(s, b, i) && i <= e <= |s|
    requires |head| == e - i && Blank(s, i) == head + Blank(s, e)
    ensures Agrees(s, b, e) && b[i..e] == head
  {
    assert b[e..] == b[i..][e - i..];
    assert b[i..e] == b[i..][..e - i];
  }

  lemma {:induction false} SkipSpaces(b: string, decode: string -> Decoded, i: nat, e: nat, acc: seq<Token>)
    requires i <= e <= |b| && b[i..e] == Spaces(e - i) && |acc| <= MAX_TOKENS
    ensures LexFrom(b, decode, i, acc) == LexFrom(b, decode, e, acc)
    decreases e - i
  {
    if i < e {
      assert b[i] == b[i..e][0];
      assert b[i + 1..e] == b[i..e][1..];
      SkipSpaces(b, decode, i + 1, e, acc);
    }
  }

  lemma {:induction false} EscapeStopsInside(s: string, j: nat)
    requires j <= |s|
    ensures EscapeStop(s, j) == |s| ==> LiteralEnd(s, j) == |s|
    ensures EscapeStop(s, j) < |s| ==> EscapeStop(s, j) + 1 <= LiteralEnd(s, j)
    ensures EscapeStop(s, j) < |s| && s[EscapeStop(s, j)] == '"' ==> LiteralEnd(s, j) == EscapeStop(s, j) + 1
    decreases |s| - j
  {
    if j < |s| && s[j] !in {'"', '\\'} { EscapeStopsInside(s, j + 1); }
  }

  ghost predicate SameOn(s: string, b: string, lo: nat, hi: nat) {
    hi <= |s| == |b| && forall k | lo <= k < hi :: s[k] == b[k]
  }

  lemma {:induction false} EscapeStopAgrees(s: string, b: string, j: nat, e: nat)
    requires j <= e && SameOn(s, b, j, e)
    requires EscapeStop(s, j) < e || e == |s|
    ensures EscapeStop(b, j) == EscapeStop(s, j)
    decreases |s| - j
  {
    if j < e && s[j] !in {'"', '\\'} { EscapeStopAgrees(s, b, j + 1, e); }
  }

  /** A closed literal ends where its closing quote is, whatever was decoded on the way. */
  lemma {:induction false} ClosedLiteralEnds(s: string, decode: string -> Decoded, start: nat, i: nat, text: string)
    requires start < i <= |s|
    ensures var l := ScanLiteral(s, decode, start, i, text);
            if l.Closed? then LiteralEnd(s, i) == l.quote + 1 else LiteralEnd(s, i) == |s|
    decreases |s| - i
  {
    if i < |s| && s[i] != '"' {
      if s[i] == '\\' && i + 1 < |s| {
        EscapeStopsInside(s, i + 2);
        ClosedLiteralEnds(s, decode, start, i + 2, text + [s[i + 1]]);
      } else {
        ClosedLiteralEnds(s, decode, start, i + 1, text + [s[i]]);
      }
    }
  }

  /** Scanning a literal looks no further than its end. */
  lemma {:induction false} ScanLiteralAgrees(s: string, b: string, decode: string -> Decoded, start: nat, i: nat,
                                             text: string)
    requires start < i <= |s| && SameOn(s, b, start, LiteralEnd(s, i))
    ensures ScanLiteral(b, decode, start, i, text) == ScanLiteral(s, decode, start, i, text)
    decreases |s| - i
  {
    if i < |s| && s[i] != '"' {
      if s[i] == '\\' && i + 1 < |s| {
        EscapeAgrees(s, b, start, i);
        if EscapeStop(s, i + 2) < |s| {
          ScanLiteralAgrees(s, b, decode, start, i + 2, text + [s[i + 1]]);
        }
      } else {
        ScanLiteralAgrees(s, b, decode, start, i + 1, text + [s[i]]);
      }
    }
  }

  lemma EscapeAgrees(s: string, b: string, start: nat, i: nat)
    requires start < i && i + 1 < |s| && s[i] == '\\' && SameOn(s, b, start, LiteralEnd(s, i))
    ensures b[i] == s[i] && b[i + 1] == s[i + 1]
    ensures var j := EscapeStop(s, i + 2);
            && EscapeStop(b, i + 2) == j
            && (j < |s| ==> b[j] == s[j] && b[start..j + 1] == s[start..j + 1])
  {
    EscapeStopsInside(s, i + 2);
    EscapeStopAgrees(s, b, i + 2, LiteralEnd(s, i + 2));
  }

  lemma PrependSlice(s: string, i: nat, e: nat)
    requires i < e <= |s|
    ensures s[i..e] == [s[i]] + s[i + 1..e]
  {}

  lemma {:induction false} IdentifierAgrees(s: string, b: string, i: nat)
    requires Agrees(s, b, i)
    ensures IdentifierEnd(b, i) == IdentifierEnd(s, i)
    ensures b[i..IdentifierEnd(s, i)] == s[i..IdentifierEnd(s, i)]
    ensures Agrees(s, b, IdentifierEnd(s, i))
    decreases |s| - i
  {
    if i < |s| {
      FirstBlank(s, i);
      assert b[i] == b[i..][0];
      if IsIdentifierPart(s[i]) {
        AgreesLater(s, b, i, i + 1, [s[i]]);
        IdentifierAgrees(s, b, i + 1);
        var e := IdentifierEnd(s, i);
        PrependSlice(s, i, e);
        PrependSlice(b, i, e);
      }
    }
  }

  lemma SymbolAgrees(s: string, b: string, i: nat)
    requires Agrees(s, b, i) && i < |s|
    requires !LineCommentAt(s, i) && !BlockCommentAt(s, i) && s[i] != '"'
    ensures b[i] == s[i] && !LineCommentAt(b, i) && !BlockCommentAt(b, i)
    ensures Agrees(s, b, i + 1)
  {
    AgreesLater(s, b, i, i + 1, [s[i]]);
    assert b[i] == b[i..i + 1][0];
    if i + 1 < |s| {
      FirstBlank(s, i + 1);
      assert b[i + 1] == b[i + 1..][0];
    }
  }

  lemma LiteralAgrees(s: string, b: string, decode: string -> Decoded, i: nat)
    requires Agrees(s, b, i) && i < |s| && s[i] == '"'
    ensures b[i] == s[i]
    ensures ScanLiteral(b, decode, i, i + 1, "") == ScanLiteral(s, decode, i, i + 1, "")
    ensures var l := ScanLiteral(s, decode, i, i + 1, ""); l.Closed? ==> Agrees(s, b, l.quote + 1)
  {
    LiteralIsCopied(s, b, i);
    ScanLiteralAgrees(s, b, decode, i, i + 1, "");
    ClosedLiteralEnds(s, decode, i, i + 1, "");
  }

  lemma LiteralIsCopied(s: string, b: string, i: nat)
    requires Agrees(s, b, i) && i < |s| && s[i] == '"'
    ensures SameOn(s, b, i, LiteralEnd(s, i + 1)) && Agrees(s, b, LiteralEnd(s, i + 1))
  {
    var e := LiteralEnd(s, i + 1);
    AgreesLater(s, b, i, e, s[i..e]);
    SlicesAgree(s, b, i, e);
  }

  lemma SlicesAgree(s: string, b: string, i: nat, e: nat)
    requires i <= e <= |s| == |b| && b[i..e] == s[i..e]
    ensures SameOn(s, b, i, e)
  {
    forall k | i <= k < e ensures s[k] == b[k] {
      assert b[k] == b[i..e][k - i] && s[k] == s[i..e][k - i];
    }
  }

  /** Where the source has a comment, the blanked one has spaces that lead to the same place. */
  lemma CommentAgrees(s: string, b: string, decode: string -> Decoded, i: nat, acc: seq<Token>)
    requires Agrees(s, b, i) && (LineCommentAt(s, i) || BlockCommentAt(s, i)) && |acc| <= MAX_TOKENS
    ensures Agrees(s, b, CommentEnd(s, i))
    ensures LexFrom(b, decode, i, acc) == LexFrom(b, decode, CommentEnd(s, i), acc)
    ensures !LexFrom(s, decode, i, acc).UnterminatedComment? ==>
              LexFrom(s, decode, i, acc) == LexFrom(s, decode, CommentEnd(s, i), acc)
  {
    var e := CommentEnd(s, i);
    AgreesLater(s, b, i, e, Spaces(e - i));
    SkipSpaces(b, decode, i, e, acc);
  }

  /** From any common boundary on, the tokens are the same, unless a comment never ends. */
  lemma {:induction false} SameTokensFrom(s: string, b: string, decode: string -> Decoded, i: nat, acc: seq<Token>)
    requires Agrees(s, b, i)
    ensures if LexFrom(s, decode, i, acc).UnterminatedComment? then !LexFrom(b, decode, i, acc).UnterminatedComment?
            else LexFrom(b, decode, i, acc) == LexFrom(s, decode, i, acc)
    decreases |s| - i
  {
    if i == |s| || |acc| > MAX_TOKENS {
    } else if LineCommentAt(s, i) || BlockCommentAt(s, i) {
      CommentAgrees(s, b, decode, i, acc);
      SameTokensFrom(s, b, decode, CommentEnd(s, i), acc);
      BlockEndUnlessTerminated(s, decode, i, acc);
    } else if s[i] == '"' {
      LiteralAgrees(s, b, decode, i);
      var l := ScanLiteral(s, decode, i, i + 1, "");
      if l.Closed? {
        SameTokensFrom(s, b, decode, l.quote + 1, acc + [Token(StringToken, l.text, i)]);
      }
    } else {
      SymbolAgrees(s, b, i);
      if IsSpace(s[i]) {
        SameTokensFrom(s, b, decode, i + 1, acc);
      } else {
        var e := WordAgrees(s, b, i);
        SameTokensFrom(s, b, decode, e,
                       acc + [Token(if IsIdentifierStart(s[i]) then Identifier else Symbol, s[i..e], i)]);
      }
    }
  }

  lemma WordAgrees(s: string, b: string, i: nat) returns (e: nat)
    requires Agrees(s, b, i) && i < |s| && !IsSpace(s[i])
    requires !LineCommentAt(s, i) && !BlockCommentAt(s, i) && s[i] != '"'
    ensures i < e <= |s| && Agrees(s, b, e) && b[i..e] == s[i..e]
    ensures e == if IsIdentifierStart(s[i]) then IdentifierEnd(s, i) else i + 1
    ensures IsIdentifierStart(s[i]) ==> IdentifierEnd(b, i) == e
  {
    SymbolAgrees(s, b, i);
    e := i + 1;
    if IsIdentifierStart(s[i]) {
      IdentifierAgrees(s, b, i);
      e := IdentifierEnd(s, i);
    }
  }

  lemma BlockEndUnlessTerminated(s: string, decode: string -> Decoded, i: nat, acc: seq<Token>)
    requires (LineCommentAt(s, i) || BlockCommentAt(s, i)) && |acc| <= MAX_TOKENS && !IsSpace(s[i])
    ensures LexFrom(s, decode, i, acc) == LexFrom(s, decode, CommentEnd(s, i), acc) ||
            (LexFrom(s, decode, i, acc).UnterminatedComment? && CommentEnd(s, i) == |s|)
  {}

  /**
   The source leaves a comment open where the tokenizer gets to see it: after `found`
   tokens, from `i` on, outside literals and other comments, a block comment opens that
   never ends, and the bound on tokens has not been exceeded before.
   */
  predicate LeavesCommentOpen(s: string, i: nat, found: nat)
    requires i <= |s|
    decreases |s| - i
  {
    i < |s| && found <= MAX_TOKENS &&
    if IsSpace(s[i]) then LeavesCommentOpen(s, i + 1, found)
    else if LineCommentAt(s, i) then LeavesCommentOpen(s, LineEnd(s, i + 2), found)
    else if BlockCommentAt(s, i) then
      var e := BlockEnd(s, i + 2, 1); e.RanOff? || LeavesCommentOpen(s, e.at, found)
    else if s[i] == '"' then LeavesCommentOpen(s, LiteralEnd(s, i + 1), found + 1)
    else if IsIdentifierStart(s[i]) then LeavesCommentOpen(s, IdentifierEnd(s, i), found + 1)
    else LeavesCommentOpen(s, i + 1, found + 1)
  }

  lemma LiteralHidesComments(s: string, decode: string -> Decoded, i: nat, acc: seq<Token>)
    requires i < |s| && s[i] == '"' && |acc| <= MAX_TOKENS
    ensures var l := ScanLiteral(s, decode, i, i + 1, "");
            if l.Closed? then
              && LexFrom(s, decode, i, acc) == LexFrom(s, decode, l.quote + 1, acc + [Token(StringToken, l.text, i)])
              && LeavesCommentOpen(s, i, |acc|) == LeavesCommentOpen(s, l.quote + 1, |acc| + 1)
            else !LexFrom(s, decode, i, acc).UnterminatedComment? && !LeavesCommentOpen(s, i, |acc|)
  {
    ClosedLiteralEnds(s, decode, i, i + 1, "");
  }

  /** The tokenizer complains of a comment exactly for such sources, whatever literals decode to. */
  lemma {:induction false} ComplainsOfOpenComments(s: string, decode: string -> Decoded, i: nat, acc: seq<Token>)
    requires i <= |s|
    ensures LexFrom(s, decode, i, acc).UnterminatedComment? <==> LeavesCommentOpen(s, i, |acc|)
    decreases |s| - i
  {
    if i == |s| || |acc| > MAX_TOKENS {
    } else if IsSpace(s[i]) {
      ComplainsOfOpenComments(s, decode, i + 1, acc);
    } else if LineCommentAt(s, i) {
      ComplainsOfOpenComments(s, decode, LineEnd(s, i + 2), acc);
    } else if BlockCommentAt(s, i) {
      var e := BlockEnd(s, i + 2, 1);
      if e.Ended? { ComplainsOfOpenComments(s, decode, e.at, acc); }
    } else if s[i] == '"' {
      LiteralHidesComments(s, decode, i, acc);
      var l := ScanLiteral(s, decode, i, i + 1, "");
      if l.Closed? {
        ComplainsOfOpenComments(s, decode, l.quote + 1, acc + [Token(StringToken, l.text, i)]);
      }
    } else {
      var ident := IsIdentifierStart(s[i]);
      var e := if ident then IdentifierEnd(s, i) else i + 1;
      ComplainsOfOpenComments(s, decode, e, acc + [Token(if ident then Identifier else Symbol, s[i..e], i)]);
    }
  }

  /** Overwriting all comments by spaces changes nothing, exactly when the source leaves none open. */
  lemma CommentBlindness(s: string, decode: string -> Decoded)
    ensures LexFrom(Blank(s, 0), decode, 0, []) == LexFrom(s, decode, 0, []) <==> !LeavesCommentOpen(s, 0, 0)
  {
    assert Blank(s, 0)[0..] == Blank(s, 0);
    SameTokensFrom(s, Blank(s, 0), decode, 0, []);
    ComplainsOfOpenComments(s, decode, 0, []);
  }

  // ---- Nothing is left out ----

  /** One past the last byte of a token. */
  function TokenEnd(s: string, t: Token): nat
    requires t.offset < |s|
  {
    if t.kind == StringToken then LiteralEnd(s, t.offset + 1) else t.offset + |t.text|
  }

  ghost predicate LiesIn(s: string, t: Token, k: nat) {
    t.offset < |s| && t.offset <= k < TokenEnd(s, t)
  }

  /** Literals have the text they say, identifiers are as long as they can be, and symbols are single bytes. */
  ghost predicate IsWhole(s: string, decode: string -> Decoded, t: Token) {
    && t.offset < |s|
    && match t.kind
       case StringToken => t.offset < TokenEnd(s, t) && Says(s[t.offset..TokenEnd(s, t)], decode, t.text)
       case Identifier =>
         IsIdentifierStart(s[t.offset]) && IsLongest(s, t.offset, t.offset + |t.text|)
       case Symbol => |t.text| == 1 && !IsIdentifierStart(s[t.offset]) && !IsSpace(s[t.offset])
  }

  /** Of the first bytes, each that is neither space nor comment lies in a token; and the tokens are whole. */
  ghost predicate Covering(s: string, b: string, decode: string -> Decoded, tokens: seq<Token>, upTo: nat)
    requires upTo <= |b|
  {
    && (forall t | t in tokens :: IsWhole(s, decode, t))
    && (forall k | 0 <= k < upTo && !IsSpace(b[k]) :: IsCovered(s, tokens, k))
  }

  ghost predicate IsCovered(s: string, tokens: seq<Token>, k: nat) {
    exists t :: t in tokens && LiesIn(s, t, k)
  }

  lemma CoverSpaces(s: string, b: string, decode: string -> Decoded, tokens: seq<Token>, i: nat, e: nat)
    requires i <= e <= |b| && Covering(s, b, decode, tokens, i) && forall k | i <= k < e :: IsSpace(b[k])
    ensures Covering(s, b, decode, tokens, e)
  {}

  lemma CoverToken(s: string, b: string, decode: string -> Decoded, tokens: seq<Token>, i: nat, t: Token, e: nat)
    requires i <= e <= |b| && Covering(s, b, decode, tokens, i)
    requires IsWhole(s, decode, t) && t.offset == i && TokenEnd(s, t) == e
    ensures Covering(s, b, decode, tokens + [t], e)
  {
    forall k | 0 <= k < e && !IsSpace(b[k]) ensures IsCovered(s, tokens + [t], k) {
      if k < i {
        assert IsCovered(s, tokens, k);
        var u :| u in tokens && LiesIn(s, u, k);
        assert u in tokens + [t];
      } else {
        assert t in tokens + [t] && LiesIn(s, t, k);
      }
    }
  }

  lemma BlankIsSpace(s: string, b: string, i: nat)
    requires Agrees(s, b, i) && (LineCommentAt(s, i) || BlockCommentAt(s, i))
    ensures Agrees(s, b, CommentEnd(s, i)) && forall k | i <= k < CommentEnd(s, i) :: IsSpace(b[k])
  {
    var e := CommentEnd(s, i);
    AgreesLater(s, b, i, e, Spaces(e - i));
    forall k | i <= k < e ensures IsSpace(b[k]) { assert b[k] == b[i..e][k - i]; }
  }

  /** The tokens leave out nothing but spaces and comments: what is left of a source once its comments are blank. */
  lemma {:induction false} TokensCoverSource(s: string, b: string, decode: string -> Decoded, i: nat, acc: seq<Token>)
    requires Agrees(s, b, i) && Covering(s, b, decode, acc, i)
    ensures LexFrom(s, decode, i, acc).Tokens? ==> Covering(s, b, decode, LexFrom(s, decode, i, acc).tokens, |b|)
    decreases |s| - i
  {
    if i < |s| && LexFrom(s, decode, i, acc).Tokens? {
      var e, more := CoverOne(s, b, decode, acc, i);
      TokensCoverSource(s, b, decode, e, more);
    }
  }

  /** One round of the tokenizer: a space, a comment, a literal or a word. */
  lemma CoverOne(s: string, b: string, decode: string -> Decoded, acc: seq<Token>, i: nat)
    returns (e: nat, more: seq<Token>)
    requires Agrees(s, b, i) && Covering(s, b, decode, acc, i) && i < |s| && LexFrom(s, decode, i, acc).Tokens?
    ensures i < e <= |s| && Agrees(s, b, e) && Covering(s, b, decode, more, e)
    ensures LexFrom(s, decode, i, acc) == LexFrom(s, decode, e, more)
  {
    if LineCommentAt(s, i) || BlockCommentAt(s, i) {
      e, more := CommentEnd(s, i), acc;
      CoverComment(s, b, decode, acc, i);
    } else if s[i] == '"' {
      e, more := CoverLiteral(s, b, decode, acc, i);
    } else if IsSpace(s[i]) {
      e, more := i + 1, acc;
      SymbolAgrees(s, b, i);
      CoverSpaces(s, b, decode, acc, i, i + 1);
    } else {
      var t;
      t, e := CoverWord(s, b, decode, acc, i);
      more := acc + [t];
    }
  }

  lemma CoverComment(s: string, b: string, decode: string -> Decoded, acc: seq<Token>, i: nat)
    requires Agrees(s, b, i) && Covering(s, b, decode, acc, i) && (LineCommentAt(s, i) || BlockCommentAt(s, i))
    requires LexFrom(s, decode, i, acc).Tokens?
    ensures Agrees(s, b, CommentEnd(s, i)) && Covering(s, b, decode, acc, CommentEnd(s, i))
    ensures LexFrom(s, decode, i, acc) == LexFrom(s, decode, CommentEnd(s, i), acc)
  {
    BlankIsSpace(s, b, i);
    CoverSpaces(s, b, decode, acc, i, CommentEnd(s, i));
    BlockEndUnlessTerminated(s, decode, i, acc);
  }

  lemma CoverLiteral(s: string, b: string, decode: string -> Decoded, acc: seq<Token>, i: nat)
    returns (e: nat, more: seq<Token>)
    requires Agrees(s, b, i) && Covering(s, b, decode, acc, i) && i < |s| && s[i] == '"'
    requires LexFrom(s, decode, i, acc).Tokens?
    ensures i < e <= |s| && Agrees(s, b, e) && Covering(s, b, decode, more, e)
    ensures LexFrom(s, decode, i, acc) == LexFrom(s, decode, e, more)
  {
    var l := ScanLiteral(s, decode, i, i + 1, "");
    LiteralIsLexed(s, decode, i, acc);
    var t := Token(StringToken, l.text, i);
    e, more := l.quote + 1, acc + [t];
    LiteralAgrees(s, b, decode, i);
    LiteralIsWhole(s, decode, i);
    CoverToken(s, b, decode, acc, i, t, e);
  }

  lemma LiteralIsLexed(s: string, decode: string -> Decoded, i: nat, acc: seq<Token>)
    requires i < |s| && s[i] == '"' && LexFrom(s, decode, i, acc).Tokens?
    ensures var l := ScanLiteral(s, decode, i, i + 1, "");
            l.Closed? && LexFrom(s, decode, i, acc)
                         == LexFrom(s, decode, l.quote + 1, acc + [Token(StringToken, l.text, i)])
  {}

  lemma LiteralIsWhole(s: string, decode: string -> Decoded, i: nat)
    requires i < |s| && s[i] == '"' && ScanLiteral(s, decode, i, i + 1, "").Closed?
    ensures var l := ScanLiteral(s, decode, i, i + 1, "");
            var t := Token(StringToken, l.text, i);
            IsWhole(s, decode, t) && TokenEnd(s, t) == l.quote + 1
  {
    ClosedLiteralEnds(s, decode, i, i + 1, "");
    LiteralSaysText(s, decode, i, i + 1, "");
  }

  lemma CoverWord(s: string, b: string, decode: string -> Decoded, acc: seq<Token>, i: nat) returns (t: Token, e: nat)
    requires Agrees(s, b, i) && Covering(s, b, decode, acc, i) && i < |s| && !IsSpace(s[i])
    requires !LineCommentAt(s, i) && !BlockCommentAt(s, i) && s[i] != '"'
    ensures i < e <= |s| && Agrees(s, b, e) && Covering(s, b, decode, acc + [t], e)
    ensures e == if IsIdentifierStart(s[i]) then IdentifierEnd(s, i) else i + 1
    ensures t == Token(if IsIdentifierStart(s[i]) then Identifier else Symbol, s[i..e], i)
  {
    SymbolAgrees(s, b, i);
    var ident := IsIdentifierStart(s[i]);
    if ident { IdentifierAgrees(s, b, i); }
    e := if ident then IdentifierEnd(s, i) else i + 1;
    t := Token(if ident then Identifier else Symbol, s[i..e], i);
    if ident { IdentifierIsLongest(s, i); }
    CoverToken(s, b, decode, acc, i, t, e);
  }

  /** Every byte outside spaces and comments lies in a token, and every token is as long as it can be. */
  lemma NothingIsLeftOut(s: string, decode: string -> Decoded)
    requires LexFrom(s, decode, 0, []).Tokens?
    ensures Covering(s, Blank(s, 0), decode, LexFrom(s, decode, 0, []).tokens, |s|)
  {
    assert Blank(s, 0)[0..] == Blank(s, 0);
    TokensCoverSource(s, Blank(s, 0), decode, 0, []);
  }
}
