/** JSON documents as trees. Object names are unique (section 4 of RFC 8259), so an object is a
    map; numbers are abstract (section 6 of RFC 8259), so a number is its value. */
module Json {
  datatype Json =
    | Null
    | Bool(b: bool)
    | Num(r: real)
    | Str(s: string)
    | Arr(items: seq<Json>)
    | Obj(members: map<string, Json>)

  datatype Option<+T> = None | Some(value: T)

  /** One step into a document: a member of an object or an element of an array. */
  datatype Step = Key(name: string) | Index(i: nat)

  /** The subdocument a path leads to, if the path exists. */
  function At(j: Json, path: seq<Step>): Option<Json>
    decreases |path|
  {
    if path == [] then Some(j)
    else match path[0]
      case Key(k) => if j.Obj? && k in j.members then At(j.members[k], path[1..]) else None
      case Index(i) => if j.Arr? && i < |j.items| then At(j.items[i], path[1..]) else None
  }
}
