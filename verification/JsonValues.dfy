/** JSON values as the program handles them after normalisation. */
module JsonValues {
  import opened Wrappers

  // A number is its shortest decimal text. An undefined field has no value
  datatype Json =
    | JsonNull
    | JsonBool(value: bool)
    | JsonNumber(text: string)
    | JsonString(chars: string)
    | JsonArray(items: seq<Json>)
    | JsonObject(fields: seq<Field>)

  datatype Field = Field(key: string, value: Option<Json>)
}
