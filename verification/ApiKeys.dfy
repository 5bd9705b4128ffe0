/**
 The text of an API key: a prefix, a ULID and a secret in base64url without padding
 (section 5 of RFC 4648).
 */
module ApiKeys {
  import opened Common

  type Byte = b: nat | b < 256
  type Sextet = v: nat | v < 64

  const PREFIX := "rpt_live_"
  const SECRET_BYTES := 32
  const ULID_LENGTH := 26

  // ---- The base64url alphabet ----

  function Digit(v: Sextet): char {
    if v < 26 then 'A' + v as char
    else if v < 52 then 'a' + (v - 26) as char
    else if v < 62 then '0' + (v - 52) as char
    else if v == 62 then '-' else '_'
  }

  function ValueOf(c: char): Option<Sextet> {
    if 'A' <= c <= 'Z' then Some(c as int - 'A' as int)
    else if 'a' <= c <= 'z' then Some(c as int - 'a' as int + 26)
    else if '0' <= c <= '9' then Some(c as int - '0' as int + 52)
    else if c == '-' then Some(62)
    else if c == '_' then Some(63) else None
  }

  lemma DigitsAreRead(v: Sextet)
    ensures ValueOf(Digit(v)) == Some(v) && Digit(v) != '\r' && Digit(v) != '\n'
  {}

  lemma ReadsAreDigits(c: char)
    requires ValueOf(c).Some?
    ensures Digit(ValueOf(c).value) == c && c != '\r' && c != '\n'
  {}

  // ---- Encoding ----

  // Three bytes are four sextets; a missing byte counts as zero.

  function First(b0: nat): nat { b0 / 4 }
  function Second(b0: nat, b1: nat): nat { b0 % 4 * 16 + b1 / 16 }
  function Third(b1: nat, b2: nat): nat { b1 % 16 * 4 + b2 / 64 }
  function Fourth(b2: nat): nat { b2 % 64 }

  function Encode(bytes: seq<Byte>): string {
    if bytes == [] then ""
    else if |bytes| == 1 then [Digit(First(bytes[0])), Digit(Second(bytes[0], 0))]
    else if |bytes| == 2 then [Digit(First(bytes[0])), Digit(Second(bytes[0], bytes[1])), Digit(Third(bytes[1], 0))]
    else [Digit(First(bytes[0])), Digit(Second(bytes[0], bytes[1])), Digit(Third(bytes[1], bytes[2])),
          Digit(Fourth(bytes[2]))]
         + Encode(bytes[3..])
  }

  // ---- Decoding ----

  predicate IsNewline(c: char) {
    c == '\r' || c == '\n'
  }

  /** The decoder skips newlines wherever they stand. */
  function WithoutNewlines(text: string): string {
    if text == "" then "" else (if IsNewline(text[0]) then "" else [text[0]]) + WithoutNewlines(text[1..])
  }

  function Values(text: string): Option<seq<Sextet>> {
    if text == "" then Some([])
    else match (ValueOf(text[0]), Values(text[1..]))
         case (Some(v), Some(rest)) => Some([v] + rest)
         case _ => None
  }

  // Four sextets are three bytes.

  function High(v0: nat, v1: nat): nat { v0 * 4 + v1 / 16 }
  function Middle(v1: nat, v2: nat): nat { v1 % 16 * 16 + v2 / 4 }
  function Low(v2: nat, v3: nat): nat { v2 % 4 * 64 + v3 }

  /** A single digit left over is an error; the unused bits of the last digit are not looked at. */
  function Bytes(values: seq<Sextet>): Option<seq<Byte>> {
    if values == [] then Some([])
    else if |values| == 1 then None
    else if |values| == 2 then Some([High(values[0], values[1])])
    else if |values| == 3 then Some([High(values[0], values[1]), Middle(values[1], values[2])])
    else match Bytes(values[4..])
         case None => None
         case Some(rest) => Some([High(values[0], values[1]), Middle(values[1], values[2]),
                                  Low(values[2], values[3])] + rest)
  }

  function Decode(text: string): Option<seq<Byte>> {
    match Values(WithoutNewlines(text))
    case None => None
    case Some(values) => Bytes(values)
  }

  // ---- Both ways ----

  function Sextets(bytes: seq<Byte>): seq<Sextet> {
    if bytes == [] then []
    else if |bytes| == 1 then [First(bytes[0]), Second(bytes[0], 0)]
    else if |bytes| == 2 then [First(bytes[0]), Second(bytes[0], bytes[1]), Third(bytes[1], 0)]
    else
      [First(bytes[0]), Second(bytes[0], bytes[1]), Third(bytes[1], bytes[2]), Fourth(bytes[2])] + Sextets(bytes[3..])
  }

  lemma GroupHoldsBytes(b0: Byte, b1: Byte, b2: Byte)
    ensures High(First(b0), Second(b0, b1)) == b0
    ensures Middle(Second(b0, b1), Third(b1, b2)) == b1
    ensures Low(Third(b1, b2), Fourth(b2)) == b2
  {}

  lemma BytesHoldGroup(v0: Sextet, v1: Sextet, v2: Sextet, v3: Sextet)
    ensures First(High(v0, v1)) == v0
    ensures Second(High(v0, v1), Middle(v1, v2)) == v1
    ensures Third(Middle(v1, v2), Low(v2, v3)) == v2
    ensures Fourth(Low(v2, v3)) == v3
    ensures Second(High(v0, v1), 0) == v1 <==> v1 % 16 == 0
    ensures Third(Middle(v1, v2), 0) == v2 <==> v2 % 4 == 0
  {}

  function Digits(values: seq<Sextet>): string {
    seq(|values|, i requires 0 <= i < |values| => Digit(values[i]))
  }

  lemma {:induction false} EncodeIsDigits(bytes: seq<Byte>)
    ensures Encode(bytes) == Digits(Sextets(bytes))
  {
    if |bytes| > 2 { EncodeIsDigits(bytes[3..]); }
  }

  lemma {:induction false} DigitsHaveValues(values: seq<Sextet>)
    ensures Values(Digits(values)) == Some(values) && WithoutNewlines(Digits(values)) == Digits(values)
  {
    if values != [] {
      DigitsAreRead(values[0]);
      DigitsHaveValues(values[1..]);
      assert Digits(values)[1..] == Digits(values[1..]);
      assert values == [values[0]] + values[1..];
      assert Digits(values) == [Digits(values)[0]] + Digits(values)[1..];
    }
  }

  lemma {:induction false} SextetsHoldBytes(bytes: seq<Byte>)
    ensures Bytes(Sextets(bytes)) == Some(bytes)
  {
    if |bytes| == 1 {
      assert bytes == [bytes[0]];
      OneHolds(bytes[0]);
    } else if |bytes| == 2 {
      assert bytes == [bytes[0], bytes[1]];
      TwoHold(bytes[0], bytes[1]);
    } else if |bytes| > 2 {
      SextetsHoldBytes(bytes[3..]);
      assert bytes == [bytes[0], bytes[1], bytes[2]] + bytes[3..];
      GroupHolds(bytes[0], bytes[1], bytes[2], bytes[3..]);
    }
  }

  lemma ShortBytes(v0: Sextet, v1: Sextet, v2: Sextet)
    ensures Bytes([v0, v1]) == Some([High(v0, v1)])
    ensures Bytes([v0, v1, v2]) == Some([High(v0, v1), Middle(v1, v2)])
  {}

  lemma ShortSextets(b0: Byte, b1: Byte)
    ensures Sextets([b0]) == [First(b0), Second(b0, 0)]
    ensures Sextets([b0, b1]) == [First(b0), Second(b0, b1), Third(b1, 0)]
  {}

  lemma OneHolds(b0: Byte)
    ensures Bytes(Sextets([b0])) == Some([b0])
  {
    ShortSextets(b0, 0);
    ShortBytes(First(b0), Second(b0, 0), 0);
    GroupHoldsBytes(b0, 0, 0);
  }

  lemma TwoHold(b0: Byte, b1: Byte)
    ensures Bytes(Sextets([b0, b1])) == Some([b0, b1])
  {
    ShortSextets(b0, b1);
    ShortBytes(First(b0), Second(b0, b1), Third(b1, 0));
    GroupHoldsBytes(b0, b1, 0);
  }

  lemma GroupBytes(v0: Sextet, v1: Sextet, v2: Sextet, v3: Sextet, rest: seq<Sextet>)
    requires Bytes(rest).Some?
    ensures Bytes([v0, v1, v2, v3] + rest) == Some([High(v0, v1), Middle(v1, v2), Low(v2, v3)] + Bytes(rest).value)
  {
    assert ([v0, v1, v2, v3] + rest)[4..] == rest;
  }

  lemma GroupSextets(b0: Byte, b1: Byte, b2: Byte, rest: seq<Byte>)
    ensures Sextets([b0, b1, b2] + rest) == [First(b0), Second(b0, b1), Third(b1, b2), Fourth(b2)] + Sextets(rest)
  {
    assert ([b0, b1, b2] + rest)[3..] == rest;
  }

  lemma GroupHolds(b0: Byte, b1: Byte, b2: Byte, rest: seq<Byte>)
    requires Bytes(Sextets(rest)) == Some(rest)
    ensures Bytes(Sextets([b0, b1, b2] + rest)) == Some([b0, b1, b2] + rest)
  {
    GroupHoldsBytes(b0, b1, b2);
    GroupSextets(b0, b1, b2, rest);
    GroupBytes(First(b0), Second(b0, b1), Third(b1, b2), Fourth(b2), Sextets(rest));
  }

  /** Decoding what was encoded gives the same bytes, whatever they are. */
  lemma DecodeEncode(bytes: seq<Byte>)
    ensures Decode(Encode(bytes)) == Some(bytes)
  {
    EncodeIsDigits(bytes);
    DigitsHaveValues(Sextets(bytes));
    SextetsHoldBytes(bytes);
  }

  /** No bits are set that the last group does not use (section 3.5 of RFC 4648). */
  predicate UnusedBitsAreZero(values: seq<Sextet>) {
    && (|values| % 4 == 2 ==> values[|values| - 1] % 16 == 0)
    && (|values| % 4 == 3 ==> values[|values| - 1] % 4 == 0)
  }

  lemma {:induction false} BytesBack(values: seq<Sextet>)
    requires Bytes(values).Some?
    ensures |Sextets(Bytes(values).value)| == |values|
    ensures Sextets(Bytes(values).value) == values <==> UnusedBitsAreZero(values)
    decreases values, 1
  {
    if |values| == 2 {
      TwoBack(values);
    } else if |values| == 3 {
      ThreeBack(values);
    } else if |values| >= 4 {
      GroupBack(values);
    }
  }

  lemma TwoBack(values: seq<Sextet>)
    requires |values| == 2
    ensures Bytes(values).Some? && |Sextets(Bytes(values).value)| == 2
    ensures Sextets(Bytes(values).value) == values <==> values[1] % 16 == 0
  {
    var bytes := Bytes(values).value;
    assert |bytes| == 1;
    assert Sextets(bytes) == [First(bytes[0]), Second(bytes[0], 0)];
    BytesHoldGroup(values[0], values[1], 0, 0);
    assert values == [values[0], values[1]];
  }

  lemma ThreeBack(values: seq<Sextet>)
    requires |values| == 3
    ensures Bytes(values).Some? && |Sextets(Bytes(values).value)| == 3
    ensures Sextets(Bytes(values).value) == values <==> values[2] % 4 == 0
  {
    var bytes := Bytes(values).value;
    assert |bytes| == 2;
    assert Sextets(bytes) == [First(bytes[0]), Second(bytes[0], bytes[1]), Third(bytes[1], 0)];
    BytesHoldGroup(values[0], values[1], values[2], 0);
    assert values == [values[0], values[1], values[2]];
  }

  lemma {:induction false} GroupBack(values: seq<Sextet>)
    requires Bytes(values).Some? && |values| >= 4
    ensures |Sextets(Bytes(values).value)| == |values|
    ensures Sextets(Bytes(values).value) == values <==> UnusedBitsAreZero(values)
    decreases values, 0
  {
    BytesBack(values[4..]);
    BytesHoldGroup(values[0], values[1], values[2], values[3]);
    var bytes, rest := Bytes(values).value, Sextets(Bytes(values[4..]).value);
    assert bytes[3..] == Bytes(values[4..]).value;
    assert Sextets(bytes) == values[..4] + rest;
    assert values == values[..4] + values[4..];
    if rest == values[4..] { assert Sextets(bytes) == values; } else { assert Sextets(bytes)[4..] == rest; }
    SameUnusedBits(values);
  }

  lemma SameUnusedBits(values: seq<Sextet>)
    requires |values| >= 4
    ensures UnusedBitsAreZero(values) <==> UnusedBitsAreZero(values[4..])
  {}

  lemma {:induction false} ValuesBack(text: string)
    requires Values(text).Some?
    ensures Digits(Values(text).value) == text && WithoutNewlines(text) == text && |Values(text).value| == |text|
  {
    if text != "" {
      ReadsAreDigits(text[0]);
      ValuesBack(text[1..]);
      var values := Values(text).value;
      assert Digits(values)[1..] == Digits(values[1..]);
      assert text == [text[0]] + text[1..];
    }
  }

  lemma DigitsAreInjective(a: seq<Sextet>, b: seq<Sextet>)
    requires Digits(a) == Digits(b)
    ensures a == b
  {
    DigitsHaveValues(a);
    DigitsHaveValues(b);
  }

  /** The text is the only one for its bytes: no newlines, and no unused bits set. */
  predicate IsCanonical(text: string) {
    Values(text).Some? && UnusedBitsAreZero(Values(text).value)
  }

  /** Encoding what was decoded gives the text back exactly when the text is canonical; other texts decode too. */
  lemma EncodeDecodeExactlyWhen(text: string)
    requires Decode(text).Some?
    ensures Encode(Decode(text).value) == text <==> IsCanonical(text)
  {
    var values := Values(WithoutNewlines(text)).value;
    var bytes := Bytes(values).value;
    ValuesBack(WithoutNewlines(text));
    EncodeIsDigits(bytes);
    BytesBack(values);
    if Encode(bytes) == text {
      DigitsHaveValues(Sextets(bytes));
      DigitsAreInjective(Sextets(bytes), values);
    } else if Values(text).Some? {
      ValuesBack(text);
    }
  }

  lemma TwoValues(text: string)
    requires |text| == 2 && ValueOf(text[0]).Some? && ValueOf(text[1]).Some?
    ensures Values(text) == Some([ValueOf(text[0]).value, ValueOf(text[1]).value])
  {
    var a, b := ValueOf(text[0]).value, ValueOf(text[1]).value;
    assert text[1..][1..] == "";
    assert Values(text[1..]) == Some([b] + []);
    assert [b] + [] == [b] && [a] + [b] == [a, b];
  }

  lemma TwoDigitsDecode(a: char, b: char)
    requires ValueOf(a).Some? && ValueOf(b).Some?
    ensures Decode([a, b]) == Some([High(ValueOf(a).value, ValueOf(b).value)])
    ensures Decode([a, '\n', b]) == Decode([a, b])
  {
    TwoValues([a, b]);
    ValuesBack([a, b]);
    ShortBytes(ValueOf(a).value, ValueOf(b).value, 0);
    NewlineIsSkipped(a, b);
  }

  lemma NewlineIsSkipped(a: char, b: char)
    requires !IsNewline(a) && !IsNewline(b)
    ensures WithoutNewlines([a, '\n', b]) == [a, b]
  {
    assert [a, '\n', b][1..] == ['\n', b] && ['\n', b][1..] == [b];
    assert WithoutNewlines([b]) == [b];
    assert WithoutNewlines(['\n', b]) == [b];
  }

  /** So the decoder alone would accept several texts for one secret. */
  lemma DecoderIsNotInjective()
    ensures Decode("AA") == Decode("AB") == Decode("A\nA") == Some([0])
  {
    TwoDigitsDecode('A', 'A');
    TwoDigitsDecode('A', 'B');
    assert "A\nA" == ['A', '\n', 'A'];
  }

  // ---- Keys ----

  /** Crockford's base 32: digits and letters of either case except I, L, O and U. */
  predicate IsCrockford(c: char) {
    || '0' <= c <= '9'
    || ('A' <= c <= 'Z' && c !in {'I', 'L', 'O', 'U'})
    || ('a' <= c <= 'z' && c !in {'i', 'l', 'o', 'u'})
  }

  /** Twenty-six digits of base 32 hold 130 bits, so the first may be at most 7. */
  predicate IsUlid(text: string) {
    |text| == ULID_LENGTH && (forall i | 0 <= i < |text| :: IsCrockford(text[i])) && text[0] <= '7'
  }

  /** Splits at the first separators, into at most `parts` parts. */
  function Split(text: string, separator: char, parts: nat): seq<string>
    decreases parts
  {
    if parts <= 1 || separator !in text then [text]
    else
      var at := FirstIndex(text, separator);
      [text[..at]] + Split(text[at + 1..], separator, parts - 1)
  }

  function FirstIndex(text: string, c: char): (at: nat)
    requires c in text
    ensures at < |text| && text[at] == c && c !in text[..at]
  {
    if text[0] == c then 0 else 1 + FirstIndex(text[1..], c)
  }

  datatype Parsed = Key(id: string, secret: seq<Byte>) | InvalidKey

  function Print(id: string, secret: seq<Byte>): string {
    PREFIX + id + "_" + Encode(secret)
  }

  function ParseKey(text: string): Parsed {
    if !(PREFIX <= text) then InvalidKey
    else
      var parts := Split(text, '_', 4);
      if |parts| != 4 || parts[0] != "rpt" || parts[1] != "live" || !IsUlid(parts[2]) then InvalidKey
      else
        match Decode(parts[3])
        case None => InvalidKey
        case Some(secret) =>
          if |secret| != SECRET_BYTES || Encode(secret) != parts[3] then InvalidKey else Key(parts[2], secret)
  }

  lemma {:induction false} FirstIndexAfter(head: string, c: char, tail: string)
    requires c !in head
    ensures FirstIndex(head + [c] + tail, c) == |head|
  {
    if head != "" {
      FirstIndexAfter(head[1..], c, tail);
      assert (head + [c] + tail)[1..] == head[1..] + [c] + tail;
    }
  }

  lemma SplitOnce(head: string, c: char, tail: string, parts: nat)
    requires c !in head && parts > 1
    ensures Split(head + [c] + tail, c, parts) == [head] + Split(tail, c, parts - 1)
  {
    var text := head + [c] + tail;
    assert text[|head|] == c;
    FirstIndexAfter(head, c, tail);
    assert text[..|head|] == head && text[|head| + 1..] == tail;
  }

  lemma UlidHasNoUnderscore(id: string)
    requires IsUlid(id)
    ensures '_' !in id
  {}

  lemma FourPartsSplit(a: string, b: string, c: string, d: string)
    requires '_' !in a && '_' !in b && '_' !in c
    ensures Split(a + ['_'] + (b + ['_'] + (c + ['_'] + d)), '_', 4) == [a, b, c, d]
  {
    var third := c + ['_'] + d;
    var second := b + ['_'] + third;
    LastPart(d);
    SplitOnce(c, '_', d, 2);
    SplitOnce(b, '_', third, 3);
    SplitOnce(a, '_', second, 4);
    FourOf(a, b, c, d);
  }

  lemma LastPart(d: string)
    ensures Split(d, '_', 1) == [d]
  {}

  lemma FourOf(a: string, b: string, c: string, d: string)
    ensures [a] + ([b] + ([c] + [d])) == [a, b, c, d]
  {}

  lemma PrintShape(id: string, last: string)
    ensures PREFIX + id + "_" + last == "rpt" + ['_'] + ("live" + ['_'] + (id + ['_'] + last))
  {
    assert PREFIX == "rpt" + ['_'] + ("live" + ['_']);
  }

  lemma PrintSplits(id: string, secret: seq<Byte>)
    requires IsUlid(id)
    ensures Split(Print(id, secret), '_', 4) == ["rpt", "live", id, Encode(secret)]
  {
    UlidHasNoUnderscore(id);
    PrintShape(id, Encode(secret));
    FourPartsSplit("rpt", "live", id, Encode(secret));
  }

  /** The parts with the separator between them. */
  function Join(parts: seq<string>, separator: char): string
    requires parts != []
  {
    if |parts| == 1 then parts[0] else parts[0] + [separator] + Join(parts[1..], separator)
  }

  lemma {:induction false} SplitJoins(text: string, c: char, parts: nat)
    ensures Split(text, c, parts) != [] && Join(Split(text, c, parts), c) == text
    decreases parts
  {
    if parts > 1 && c in text {
      var at := FirstIndex(text, c);
      SplitJoins(text[at + 1..], c, parts - 1);
      assert Split(text, c, parts)[1..] == Split(text[at + 1..], c, parts - 1);
      assert text == text[..at] + [c] + text[at + 1..];
    }
  }

  lemma FourJoin(parts: seq<string>)
    requires |parts| == 4
    ensures Join(parts, '_') == parts[0] + ['_'] + (parts[1] + ['_'] + (parts[2] + ['_'] + parts[3]))
  {
    assert Join(parts[3..], '_') == parts[3];
    assert parts[2..][1..] == parts[3..] && parts[1..][1..] == parts[2..];
    assert Join(parts[2..], '_') == parts[2] + ['_'] + parts[3];
  }

  /**
   A text is accepted as the key with this id and secret exactly when it is the printed
   form of a valid id and a secret of 32 bytes; underscores in the encoded secret do no harm.
   */
  lemma AcceptsExactlyPrintedKeys(text: string, id: string, secret: seq<Byte>)
    ensures ParseKey(text) == Key(id, secret) <==> IsUlid(id) && |secret| == SECRET_BYTES && text == Print(id, secret)
  {
    if ParseKey(text) == Key(id, secret) {
      SplitJoins(text, '_', 4);
      FourJoin(Split(text, '_', 4));
      PrintShape(id, Encode(secret));
    } else if IsUlid(id) && |secret| == SECRET_BYTES && text == Print(id, secret) {
      PrintedKeysParse(id, secret);
    }
  }

  lemma PrintHasPrefix(id: string, secret: seq<Byte>)
    ensures PREFIX <= Print(id, secret)
  {
    assert Print(id, secret)[..|PREFIX|] == PREFIX;
  }

  /** Issuing a key and presenting it again gives its id and its secret. */
  lemma PrintedKeysParse(id: string, secret: seq<Byte>)
    requires IsUlid(id) && |secret| == SECRET_BYTES
    ensures ParseKey(Print(id, secret)) == Key(id, secret)
  {
    PrintSplits(id, secret);
    DecodeEncode(secret);
    PrintHasPrefix(id, secret);
    FourPartsParse(Print(id, secret), id, Encode(secret), secret);
  }

  /** How a text of four parts is parsed. */
  lemma FourPartsParse(text: string, id: string, last: string, secret: seq<Byte>)
    requires PREFIX <= text && Split(text, '_', 4) == ["rpt", "live", id, last]
    requires IsUlid(id) && Decode(last) == Some(secret) && |secret| == SECRET_BYTES && Encode(secret) == last
    ensures ParseKey(text) == Key(id, secret)
  {}

  /** Different keys never print alike. */
  lemma PrintIsInjective(id: string, secret: seq<Byte>, id': string, secret': seq<Byte>)
    requires IsUlid(id) && IsUlid(id') && Print(id, secret) == Print(id', secret')
    ensures id == id' && secret == secret'
  {
    PrintSplits(id, secret);
    PrintSplits(id', secret');
    assert [Encode(secret)] == Split(Print(id, secret), '_', 4)[3..];
    DecodeEncode(secret);
    DecodeEncode(secret');
  }
}
