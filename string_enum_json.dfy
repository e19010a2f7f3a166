/** `StringEnumJsonConverter<T>`: reads and writes string-enum values through the table. */
module StringEnumJson {
  import opened Wrappers
  import opened StringEnum
  import opened Json

  /** `Read`: a null or string token is looked up with `Find`, so it never fails: null
      and "" give `None`, a registered string its singleton, any other string `Unknown`;
      every other token type throws. */
  function Read(t: Table, token: Json): (r: Result<EnumValue, JsonError>)
    ensures r.Success? <==> (token.JNull? || token.JString?)
    ensures r.Failure? ==> r.error == UnsupportedTokenType(TokenTypeOf(token))
    ensures token.JNull? ==> r == Success(NoneValue)
    ensures token.JString? && token.s == "" ==> r == Success(NoneValue)
    ensures token.JString? && token.s != "" && token.s in t ==> r == Success(t[token.s])
    ensures token.JString? && token.s != "" && token.s !in t ==> r == Success(UnknownValue)
  {
    if token.JNull? || token.JString? then Success(FindIn(t, GetString(token)))
    else Failure(UnsupportedTokenType(TokenTypeOf(token)))
  }

  /** The token `Write` emits: `value?.ToString()` as a string, null as JSON null. */
  function WriteToken(value: Option<EnumValue>): Json {
    if value.Some? then JString(value.value.ToString()) else JNull
  }

  /** `Write(writer, value)` appends exactly the token of `value`. */
  method Write(writer: JsonWriter, value: Option<EnumValue>)
    modifies writer
    ensures writer.written == old(writer.written) + [WriteToken(value)]
  {
    writer.WriteStringValue(if value.Some? then Some(value.value.ToString()) else None);
  }

  /** Writing a registered value and reading the token back gives the same value. A null
      value is written as JSON null, which the converter reads back as `None`. */
  lemma WriteReadRoundTrip(t: Table, value: Option<EnumValue>)
    requires WellFormed(t) && "" in t && t[""] == NoneValue
    requires value.Some? ==> value.value in t.Values
    ensures Read(t, WriteToken(value)) == Success(if value.Some? then value.value else NoneValue)
  {
    if value.Some? {
      FindToStringRoundTrip(t, value.value);
    }
  }
}
