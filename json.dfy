/**
 * JSON values as the converters see them through `Utf8JsonReader`, and the writer they
 * append tokens to (`Utf8JsonWriter`).
 */
module Json {
  import opened Wrappers

  /** A number literal: one written with digits only (an optional minus and no fraction
      or exponent) has an integer value; any other (`123.123`, `1e3`) is kept as text. */
  datatype Number = Integer(value: int) | NonInteger(text: string)

  datatype Json =
    | JNull
    | JBool(b: bool)
    | JString(s: string)
    | JNumber(n: Number)
    | JArray(items: seq<Json>)
    | JObject(fields: seq<(string, Json)>)

  /** `Utf8JsonReader.TokenType` at the start of a value. */
  datatype TokenType = Null | True | False | String | Number | StartArray | StartObject

  function TokenTypeOf(j: Json): TokenType {
    match j
    case JNull => Null
    case JBool(b) => if b then True else False
    case JString(_) => String
    case JNumber(_) => Number
    case JArray(_) => StartArray
    case JObject(_) => StartObject
  }

  /** `reader.GetString()`: the string of a string token, null for a null token. */
  function GetString(j: Json): Option<string>
    requires j.JNull? || j.JString?
  {
    if j.JString? then Some(j.s) else None
  }

  /** The exceptions reading can raise, by the message the source gives them. */
  datatype JsonError =
    | UnsupportedTokenType(tokenType: TokenType)     // "Unsupported token type: ..."
    | UnexpectedToken(tokenType: TokenType)          // "Unexpected JSON token ... for DateTimeOffset."
    | CannotConvert(value: string)                   // "Cannot convert value '...' to DateTimeOffset."
    | InvalidUnixMsNumber                            // "Invalid numeric value for Unix milliseconds epoch."
    | ExpectedUnixMsNumber(got: Option<TokenType>)   // "Expected number for Unix time milliseconds but got ..."
    | NotAnInt64                                     // `GetInt64` on a number that is not one
    | UnixMsOutOfRange(ms: int)                      // `FromUnixTimeMilliseconds` range check
    | UnknownDiscriminator(name: Option<string>)     // polymorphic read without a registered `name`
    | MalformedProperty(property: string)            // a property of the wrong JSON type
    | ConstructorRejected(paramName: string)         // `ArgumentNullException` from a constructor

  /** `Utf8JsonWriter`: the values written so far, in order. */
  class JsonWriter {
    var written: seq<Json>

    constructor ()
      ensures written == []
    {
      written := [];
    }

    /** `WriteStringValue(s)`: a null string is written as JSON null. */
    method WriteStringValue(value: Option<string>)
      modifies this
      ensures written == old(written) + [if value.Some? then JString(value.value) else JNull]
    {
      written := written + [if value.Some? then JString(value.value) else JNull];
    }

    method WriteNumberValue(n: int)
      modifies this
      ensures written == old(written) + [JNumber(Integer(n))]
    {
      written := written + [JNumber(Integer(n))];
    }

    method WriteNullValue()
      modifies this
      ensures written == old(written) + [JNull]
    {
      written := written + [JNull];
    }
  }
}
