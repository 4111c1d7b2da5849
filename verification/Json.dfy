/** JSON values as the backend sees them (sections 3 to 7 of RFC 8259). */
module JsonValues {
  import opened Basics

  /** Numbers keep their text; objects keep their members in order, duplicates included. */
  datatype Json =
    | Null
    | Bool(b: bool)
    | Num(text: string)
    | Str(s: string)
    | Arr(items: seq<Json>)
    | Obj(members: seq<(string, Json)>)

  /** `value[key]`: the last member of that name, Null when there is none or the value is no object. */
  function Field(v: Json, key: string): Json {
    if v.Obj? then Lookup(v.members, key) else Null
  }

  function Lookup(members: seq<(string, Json)>, key: string): Json {
    if members == [] then Null
    else if members[|members| - 1].0 == key then members[|members| - 1].1
    else Lookup(members[..|members| - 1], key)
  }

  function AsStr(v: Json): Option<string> {
    if v.Str? then Some(v.s) else None
  }

  predicate IsType(v: Json, t: string) {
    AsStr(Field(v, "type")) == Some(t)
  }
}
