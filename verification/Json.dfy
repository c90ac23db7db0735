/**
 * JSON values as the services receive them. An object is the list of its own
 * properties in property order; numbers are carried as the text JavaScript
 * prints for them.
 */
module Json {
  import opened Basics

  datatype Json =
    | JNull
    | JBool(b: bool)
    | JNum(text: string)
    | JStr(s: string)
    | JArr(items: seq<Json>)
    | JObj(fields: seq<Field>)

  datatype Field = Field(key: string, value: Json)

  // obj[key]; None stands for `undefined`.
  function Get(fields: seq<Field>, key: string): (r: Option<Json>)
    ensures r.Some? ==> Field(key, r.value) in fields
    ensures r.None? ==> forall f :: f in fields ==> f.key != key
  {
    if fields == [] then None
    else if fields[0].key == key then Some(fields[0].value)
    else Get(fields[1..], key)
  }
}
