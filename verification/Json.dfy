/** Decoded JSON values, as the contract engine receives them, and their type names. */
module Json {

  /** A number keeps its text: the text alone tells an integer from a number. */
  datatype Value =
    | Null
    | Bool(b: bool)
    | Number(text: string)
    | String(s: string)
    | Array(items: seq<Value>)
    | Object(fields: map<string, Value>)

  /** The type names a generated schema can mention, in alphabetical order. */
  datatype TypeName = TArray | TBoolean | TInteger | TNull | TNumber | TObject | TString

  const EmptyObject: Value := Object(map[])

  predicate LooksFractional(text: string) {
    exists i | 0 <= i < |text| :: text[i] in {'.', 'e', 'E'}
  }

  /** The one type name that inference gives a value. */
  function TypeOf(v: Value): TypeName {
    match v
    case Null => TNull
    case Bool(_) => TBoolean
    case Number(text) => if LooksFractional(text) then TNumber else TInteger
    case String(_) => TString
    case Array(_) => TArray
    case Object(_) => TObject
  }

  /** Validation's view: an integer is also a number. */
  predicate TypeMatches(t: TypeName, v: Value) {
    match t
    case TArray => v.Array?
    case TBoolean => v.Bool?
    case TInteger => v.Number? && !LooksFractional(v.text)
    case TNull => v.Null?
    case TNumber => v.Number?
    case TObject => v.Object?
    case TString => v.String?
  }

  /**
   `TypeMatches` widens `TypeOf` in exactly one place; an integer is a number written with neither
   point nor exponent.
   */
  lemma TypeMatchesExactly(t: TypeName, v: Value)
    ensures TypeMatches(t, v) <==> t == TypeOf(v) || (t == TNumber && TypeOf(v) == TInteger)
    ensures TypeMatches(TInteger, v) <==> v.Number? && '.' !in v.text && 'e' !in v.text && 'E' !in v.text
  {}
}
