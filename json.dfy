/** JSON values as the server and the client exchange them. Objects keep
    their entries in key order; numbers are integers (see README). */
module JsonData {
  import opened Common

  datatype Json =
    | Null
    | Bool(b: bool)
    | Num(n: int)
    | Str(s: string)
    | Arr(items: seq<Json>)
    | Obj(entries: Entries<Json>)

  /** A measure on values; every value has size at least 1 and a value is
      larger than each of its members. */
  function Size(j: Json): (n: nat)
    ensures n >= 1
    decreases j
  {
    match j
    case Arr(items) => 1 + ItemsSize(items)
    case Obj(entries) => 1 + EntriesSize(entries)
    case _ => 1
  }

  function ItemsSize(items: seq<Json>): nat
    decreases items
  {
    if |items| == 0 then 0 else Size(items[0]) + ItemsSize(items[1..])
  }

  function EntriesSize(entries: Entries<Json>): nat
    decreases entries
  {
    if |entries| == 0 then 0
    else Size(entries[0].value) + EntriesSize(entries[1..])
  }

  /** A one-entry object `{key: value}`. */
  function Single(key: string, value: Json): Json
  {
    Obj([Entry(key, value)])
  }
}
