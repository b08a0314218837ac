/** The escape-hatch contract at every depth: what happens to a key the model does not declare. */
module Fidelity {
  import opened Json
  import opened Schema
  import opened Codec
  import opened Prune

  /** The struct type an object is read into, for the object a path of declared fields leads to, none
      of them spelled in another way beside it. */
  ghost function StructAt(reg: Registry, s: Struct, d: Json, path: seq<Step>): Option<Struct>
    decreases |path|, 0
  {
    if !d.Obj? then None
    else if path == [] then Some(s)
    else if path[0].Key? && path[0].name in s.fields && path[0].name in d.members && !Respelled(s, d.members, path[0].name)
    then KindAt(reg, s.fields[path[0].name].kind, d.members[path[0].name], path[1..])
    else None
  }

  ghost function KindAt(reg: Registry, k: Kind, d: Json, path: seq<Step>): Option<Struct>
    decreases |path|, 1
  {
    match k
    case KInline(u) => StructAt(reg, u, d, path)
    case KPointer(t) => StructAt(reg, reg.types(t), d, path)
    case KSlice(t) =>
      if d.Arr? && path != [] && path[0].Index? && path[0].i < |d.items|
      then StructAt(reg, reg.types(t), d.items[path[0].i], path[1..])
      else None
    case _ => None
  }

  lemma {:induction false} AtAppend(j: Json, path: seq<Step>, last: Step)
    ensures At(j, path + [last]) == var m := At(j, path); if m.Some? then At(m.value, [last]) else None
    decreases |path|
  {
    if path == [] {
      assert path + [last] == [last];
    } else {
      assert (path + [last])[1..] == path[1..] + [last];
      match path[0]
      case Key(k) => if j.Obj? && k in j.members { AtAppend(j.members[k], path[1..], last); }
      case Index(i) => if j.Arr? && i < |j.items| { AtAppend(j.items[i], path[1..], last); }
    }
  }

  /** The same path leads to the pruned object in the pruned document. */
  lemma {:induction false} PathKept(reg: Registry, s: Struct, d: Json, path: seq<Step>)
    requires StructAt(reg, s, d, path).Some?
    ensures At(d, path).Some? && At(d, path).value.Obj?
    ensures At(Pruned(reg, s, d), path) == Some(Pruned(reg, StructAt(reg, s, d, path).value, At(d, path).value))
    decreases |path|, 0
  {
    if path != [] {
      var f := path[0].name;
      KindPathKept(reg, s.fields[f].kind, d.members[f], path[1..]);
      HeldZero(s, f);
      SoleEntry(reg, s, ZeroObject(s), d.members, f);
      PrunedMember(reg, s, ZeroObject(s), d.members, f);
    }
  }

  lemma {:induction false} KindPathKept(reg: Registry, k: Kind, d: Json, path: seq<Step>)
    requires KindAt(reg, k, d, path).Some?
    ensures !Vacant(k, PrunedKind(reg, k, d))
    ensures At(d, path).Some? && At(d, path).value.Obj?
    ensures At(PrunedKind(reg, k, d), path) == Some(Pruned(reg, KindAt(reg, k, d, path).value, At(d, path).value))
    decreases |path|, 1
  {
    match k
    case KInline(u) => PathKept(reg, u, d, path);
    case KPointer(t) => PathKept(reg, reg.types(t), d, path);
    case KSlice(t) => PathKept(reg, reg.types(t), d.items[path[0].i], path[1..]);
  }

  /** A key its struct type does not declare, at any depth of any document that decodes: verbatim
      in the re-encoded document if the type is open, gone if it is closed. */
  lemma UnknownKeyFate(reg: Registry, s: Struct, d: Json, path: seq<Step>, k: string)
    requires DecodeStruct(reg, s, d).Some?
    requires StructAt(reg, s, d, path).Some?
    requires k !in StructAt(reg, s, d, path).value.fields
    requires At(d, path + [Key(k)]).Some?
    ensures At(Encode(DecodeStruct(reg, s, d).value), path + [Key(k)]) ==
            if StructAt(reg, s, d, path).value.open then At(d, path + [Key(k)]) else None
  {
    var u := StructAt(reg, s, d, path).value;
    EncodeDecode(reg, s, d);
    PathKept(reg, s, d, path);
    AtAppend(d, path, Key(k));
    AtAppend(Pruned(reg, s, d), path, Key(k));
    PrunedMember(reg, u, ZeroObject(u), At(d, path).value.members, k);
  }
}
