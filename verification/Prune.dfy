/** The specification of the codec: what a document becomes when it is decoded and re-encoded,
    said on JSON trees alone. */
module Prune {
  import opened Json
  import opened Schema
  import opened Codec

  /** The wire form of a kind's zero value. */
  function ZeroJson(k: Kind): Json {
    match k
    case KText => Str("")
    case KFlag => Bool(false)
    case KInt(_, _) => Num(0.0)
    case KInline(s) => ZeroObject(s)
    case _ => Null
  }

  function ZeroObject(s: Struct): Json {
    Obj(map f | f in s.fields && (!s.fields[f].omitEmpty || s.fields[f].kind.KInline?) :: ZeroJson(s.fields[f].kind))
  }

  /** A wire value `omitempty` drops. Free-form JSON and pointers only drop null, so "" and
      false survive there; an inline struct is never dropped. */
  predicate Vacant(k: Kind, j: Json) {
    match k
    case KText => j == Null || j == Str("")
    case KFlag => j == Null || j == Bool(false)
    case KInt(_, _) => j == Null || j == Num(0.0)
    case KAnyMap => j == Null || j == Obj(map[])
    case KTextMap => j == Null || j == Obj(map[])
    case KAnySlice => j == Null || j == Arr([])
    case KSlice(_) => j == Null || j == Arr([])
    case KInline(_) => false
    case _ => j == Null
  }

  /** What is written for a field of kind k once the document says j, where was would be written
      without it. Only maps and closed structs keep something of was, and null keeps a scalar. */
  ghost function PruneKind(reg: Registry, k: Kind, was: Json, j: Json): Json
    decreases j, 5
  {
    if j.Null? then if KeepsOnNull(k) then was else ZeroJson(k)
    else
      match k
      case KAnyMap => if j.Obj? then Obj(Entries(was) + j.members) else j
      case KTextMap => if j.Obj? then Obj(Entries(was) + Blanked(j.members)) else j
      case KInline(s) => PruneStruct(reg, s, was, j)
      case KPointer(t) => PruneStruct(reg, reg.types(t), if was.Obj? then was else ZeroObject(reg.types(t)), j)
      case KSlice(t) => if j.Arr? then Arr(seq(|j.items|, n requires 0 <= n < |j.items| => Pruned(reg, reg.types(t), j.items[n]))) else j
      case _ => j
  }

  function Entries(j: Json): map<string, Json> { if j.Obj? then j.members else map[] }

  function Blanked(m: map<string, Json>): map<string, Json> { map n | n in m :: if m[n].Null? then Str("") else m[n] }

  /** A closed struct is filled further, an open one starts over. */
  ghost function PruneStruct(reg: Registry, s: Struct, was: Json, j: Json): Json
    decreases j, 3, 2
  {
    if !j.Obj? then StartJson(s, was)
    else
      var o := j.members;
      Obj(map k | k in s.fields.Keys + o.Keys && Survives(reg, s, was, o, k) :: if k in s.fields then Entry(reg, s, was, o, k) else o[k])
  }

  function StartJson(s: Struct, was: Json): Json { if s.open then ZeroObject(s) else was }

  function Held(s: Struct, was: Json, f: string): Json
    requires f in s.fields
  {
    if was.Obj? && f in was.members then was.members[f] else ZeroJson(s.fields[f].kind)
  }

  /** Declared keys stay unless optional and vacant; unknown keys stay in open structs only. */
  ghost predicate Survives(reg: Registry, s: Struct, was: Json, o: map<string, Json>, k: string)
    decreases Obj(o), 3, 1
  {
    if k in s.fields then !(s.fields[k].omitEmpty && Vacant(s.fields[k].kind, Entry(reg, s, was, o, k))) else s.open
  }

  /** What a declared field comes to when all its spellings in the object are read in order. */
  ghost function Entry(reg: Registry, s: Struct, was: Json, o: map<string, Json>, f: string): Json
    requires f in s.fields
    decreases Obj(o), 2
  {
    PruneMembers(reg, s.fields[f].kind, Held(s, StartJson(s, was), f), o, Spellings(reg, s.fields.Keys, o, f))
  }

  ghost function PruneMembers(reg: Registry, k: Kind, was: Json, o: map<string, Json>, keys: seq<string>): Json
    requires forall n :: n in keys ==> n in o
    decreases Obj(o), 1, |keys|
  {
    if keys == [] then was else PruneMembers(reg, k, PruneKind(reg, k, was, o[keys[0]]), o, keys[1..])
  }

  /** The document read into a new struct. */
  ghost function Pruned(reg: Registry, s: Struct, d: Json): Json
    decreases d, 4
  {
    PruneStruct(reg, s, ZeroObject(s), d)
  }

  ghost function PrunedKind(reg: Registry, k: Kind, j: Json): Json { PruneKind(reg, k, ZeroJson(k), j) }

  // ----- zero values and empty values -----

  lemma {:induction false} EncodeZero(k: Kind)
    ensures Encode(Zero(k)) == ZeroJson(k)
    ensures Empty(Zero(k)) == Vacant(k, ZeroJson(k)) == !k.KInline?
  {
    if k.KInline? { EncodeZeroStruct(k.struct); }
  }

  lemma {:induction false} EncodeZeroStruct(s: Struct)
    ensures Encode(ZeroStruct(s)) == ZeroObject(s)
  {
    forall f | f in s.fields
      ensures Encode(Zero(s.fields[f].kind)) == ZeroJson(s.fields[f].kind)
      ensures Empty(Zero(s.fields[f].kind)) == !s.fields[f].kind.KInline?
    {
      EncodeZero(s.fields[f].kind);
    }
    hide ZeroJson, Zero, Empty;
    assert Encode(ZeroStruct(s)).members == ZeroObject(s).members;
  }

  /** omitempty drops exactly the values whose wire form is vacant. */
  lemma EmptyIsVacant(reg: Registry, k: Kind, v: Value)
    requires HasType(reg, k, v)
    ensures Empty(v) == Vacant(k, Encode(v))
    ensures k.KInline? ==> !Empty(v)
  {
    hide HasStructType;
    if k.KInline? || (k.KPointer? && !v.Nil?) { TypedIsStruct(reg, k, v); }
    if v.TextMap? { assert v.t != map[] ==> exists n :: n in v.t; assert v.t.Keys == Encode(v).members.Keys; }
  }

  lemma TypedIsStruct(reg: Registry, k: Kind, v: Value)
    requires HasType(reg, k, v)
    ensures k.KInline? ==> v.StructVal?
    ensures k.KPointer? && v.Ptr? ==> v.target.StructVal?
  {
  }

  lemma ScalarsEncode(reg: Registry, k: Kind, v: Value)
    requires HasType(reg, k, v)
    ensures KeepsOnNull(k) ==> Encode(v) != Null
  {
    if k.KInline? { TypedIsStruct(reg, k, v); }
  }

  /** A vacant value leaves no trace in what is read over it. */
  lemma VacantForgotten(reg: Registry, k: Kind, was: Json, j: Json)
    requires Vacant(k, was) && (was != Null || !KeepsOnNull(k))
    ensures PruneKind(reg, k, was, j) == PruneKind(reg, k, ZeroJson(k), j)
  {
    hide PruneStruct, Pruned;
  }

  // ----- encode(decode(d)) is the pruned document -----

  lemma {:induction false} EncodeReadTextMap(reg: Registry, was: Value, j: Json)
    requires HasType(reg, KTextMap, was) && j.Obj? && ReadInto(reg, KTextMap, was, j).Some?
    ensures Encode(ReadInto(reg, KTextMap, was, j).value) == PruneKind(reg, KTextMap, Encode(was), j)
  {
    var v := ReadInto(reg, KTextMap, was, j).value;
    assert Encode(v).members == PruneKind(reg, KTextMap, Encode(was), j).members;
  }

  lemma {:induction false} EncodeReadSlice(reg: Registry, t: TypeName, was: Value, j: Json)
    requires j.Arr? && ReadInto(reg, KSlice(t), was, j).Some?
    ensures HasType(reg, KSlice(t), ReadInto(reg, KSlice(t), was, j).value)
    ensures Encode(ReadInto(reg, KSlice(t), was, j).value) == PruneKind(reg, KSlice(t), Encode(was), j)
    decreases j, 4
  {
    forall n | 0 <= n < |j.items|
      ensures HasStructType(reg, reg.types(t), DecodeStruct(reg, reg.types(t), j.items[n]).value)
      ensures Encode(DecodeStruct(reg, reg.types(t), j.items[n]).value) == Pruned(reg, reg.types(t), j.items[n])
    {
      EncodeDecode(reg, reg.types(t), j.items[n]);
    }
    hide DecodeStruct, Pruned, HasStructType;
    assert Encode(ReadInto(reg, KSlice(t), was, j).value).items == PruneKind(reg, KSlice(t), Encode(was), j).items;
  }

  lemma {:induction false} EncodeRead(reg: Registry, k: Kind, was: Value, j: Json)
    requires HasType(reg, k, was) && ReadInto(reg, k, was, j).Some?
    ensures HasType(reg, k, ReadInto(reg, k, was, j).value)
    ensures Encode(ReadInto(reg, k, was, j).value) == PruneKind(reg, k, Encode(was), j)
    decreases j, 5
  {
    hide ReadStruct, PruneStruct, HasStructType;
    if j.Null? {
      EncodeZero(k);
      ZeroHasType(reg, k);
    } else {
      match k
      case KTextMap => EncodeReadTextMap(reg, was, j);
      case KInline(s) => EncodeReadStruct(reg, s, was, j);
      case KPointer(t) =>
        var target := if was.Ptr? then was.target else ZeroStruct(reg.types(t));
        EncodeZeroStruct(reg.types(t));
        ZeroStructHasType(reg, reg.types(t));
        TypedIsStruct(reg, k, was);
        EncodeReadStruct(reg, reg.types(t), target, j);
      case KSlice(t) => EncodeReadSlice(reg, t, was, j);
      case _ =>
    }
  }

  lemma {:induction false} EncodeReadMembers(reg: Registry, k: Kind, was: Value, o: map<string, Json>, keys: seq<string>)
    requires HasType(reg, k, was) && forall n :: n in keys ==> n in o
    requires ReadMembers(reg, k, was, o, keys).Some?
    ensures HasType(reg, k, ReadMembers(reg, k, was, o, keys).value)
    ensures Encode(ReadMembers(reg, k, was, o, keys).value) == PruneMembers(reg, k, Encode(was), o, keys)
    decreases Obj(o), 1, |keys|
  {
    if keys != [] {
      hide HasType, ReadInto, PruneKind, Encode;
      EncodeRead(reg, k, was, o[keys[0]]);
      EncodeReadMembers(reg, k, ReadInto(reg, k, was, o[keys[0]]).value, o, keys[1..]);
    }
  }

  /** A declared field of the value read, against its entry. */
  ghost predicate FieldEncodes(reg: Registry, s: Struct, v: Value, f: string, e: Json)
    requires f in s.fields
  {
    && HasType(reg, s.fields[f].kind, v)
    && Empty(v) == Vacant(s.fields[f].kind, e)
    && (!(s.fields[f].omitEmpty && Empty(v)) ==> Encode(v) == e)
  }

  /** What a struct holds in a field is on the wire, unless omitempty dropped it. */
  lemma HeldField(reg: Registry, s: Struct, was: Value, f: string)
    requires HasStructType(reg, s, was) && f in s.fields
    ensures var b, h, k := FieldOf(s, Start(s, was), f), Held(s, StartJson(s, Encode(was)), f), s.fields[f].kind;
            HasType(reg, k, b) && (h == Encode(b) || (s.fields[f].omitEmpty && h == ZeroJson(k) && Vacant(k, Encode(b)) && Vacant(k, h)))
  {
    var start := Start(s, was);
    ZeroStructHasType(reg, s);
    EncodeZeroStruct(s);
    EncodedMember(start, f);
    EmptyIsVacant(reg, s.fields[f].kind, start.fields[f]);
    EncodeZero(s.fields[f].kind);
    hide Encode, Vacant, ZeroJson, HasType, Empty, ZeroObject;
  }

  lemma VacantForgottenByAll(reg: Registry, k: Kind, was: Json, o: map<string, Json>, keys: seq<string>)
    requires Vacant(k, was) && (was != Null || !KeepsOnNull(k)) && keys != [] && forall n :: n in keys ==> n in o
    ensures PruneMembers(reg, k, was, o, keys) == PruneMembers(reg, k, ZeroJson(k), o, keys)
  {
    VacantForgotten(reg, k, was, o[keys[0]]);
    hide PruneKind;
  }

  lemma {:induction false} EncodeReadField(reg: Registry, s: Struct, was: Value, o: map<string, Json>, f: string)
    requires HasStructType(reg, s, was) && f in s.fields && ReadField(reg, s, was, o, f).Some?
    ensures FieldEncodes(reg, s, ReadField(reg, s, was, o, f).value, f, Entry(reg, s, Encode(was), o, f))
    decreases Obj(o), 2
  {
    hide PruneKind, Spellings, Encode, Vacant, ZeroJson, HasType, Empty, FieldOf, Start, Held, StartJson, HasStructType;
    var k, keys := s.fields[f].kind, Spellings(reg, s.fields.Keys, o, f);
    HeldField(reg, s, was, f);
    var b := FieldOf(s, Start(s, was), f);
    EncodeReadMembers(reg, k, b, o, keys);
    EmptyIsVacant(reg, k, ReadField(reg, s, was, o, f).value);
    if Held(s, StartJson(s, Encode(was)), f) != Encode(b) && keys != [] {
      ScalarsEncode(reg, k, b);
      VacantForgottenByAll(reg, k, Encode(b), o, keys);
    }
  }

  /** Reading a document over a struct does on the wire what pruning says. */
  lemma {:induction false} EncodeReadStruct(reg: Registry, s: Struct, was: Value, j: Json)
    requires HasStructType(reg, s, was) && ReadStruct(reg, s, was, j).Some?
    ensures HasStructType(reg, s, ReadStruct(reg, s, was, j).value)
    ensures Encode(ReadStruct(reg, s, was, j).value) == PruneStruct(reg, s, Encode(was), j)
    decreases j, 3
  {
    if j.Null? {
      EncodeZeroStruct(s);
      ZeroStructHasType(reg, s);
    } else {
      hide ReadField, FieldEncodes, Entry, PruneStruct, HasStructType, Encode, Survives;
      var o, v := j.members, ReadStruct(reg, s, was, j).value;
      forall f | f in s.fields ensures f in v.fields && FieldEncodes(reg, s, v.fields[f], f, Entry(reg, s, Encode(was), o, f)) {
        EncodeReadField(reg, s, was, o, f);
      }
      EncodeMembers(reg, s, Encode(was), o, v);
    }
  }

  /** Every member of a pruned object. */
  lemma PrunedMember(reg: Registry, s: Struct, was: Json, o: map<string, Json>, k: string)
    ensures PruneStruct(reg, s, was, Obj(o)).Obj?
    ensures k in PruneStruct(reg, s, was, Obj(o)).members <==> (k in s.fields || k in o) && Survives(reg, s, was, o, k)
    ensures k in s.fields && Survives(reg, s, was, o, k) ==> PruneStruct(reg, s, was, Obj(o)).members[k] == Entry(reg, s, was, o, k)
    ensures k !in s.fields && k in o && s.open ==> PruneStruct(reg, s, was, Obj(o)).members[k] == o[k]
  {
    hide Entry, Vacant;
  }

  /** Field by field agreement is agreement of the whole object. */
  lemma EncodeMembers(reg: Registry, s: Struct, was: Json, o: map<string, Json>, v: Value)
    requires v.StructVal? && v.typ == s && v.fields.Keys == s.fields.Keys
    requires v.extra == if s.open then Rest(o, s.fields.Keys) else None
    requires forall f :: f in s.fields ==> FieldEncodes(reg, s, v.fields[f], f, Entry(reg, s, was, o, f))
    ensures HasStructType(reg, s, v)
    ensures Encode(v) == PruneStruct(reg, s, was, Obj(o))
  {
    hide Encode, Empty, PruneStruct, Entry, Vacant, HasType;
    EncodedMember(v, "");
    PrunedMember(reg, s, was, o, "");
    var e, p := Encode(v), PruneStruct(reg, s, was, Obj(o));
    forall k: string
      ensures k in e.members <==> k in p.members
      ensures k in e.members ==> e.members[k] == p.members[k]
    {
      EncodedMember(v, k);
      PrunedMember(reg, s, was, o, k);
      if k in s.fields {
        assert k in v.fields;
      }
    }
    assert e.members == p.members;
  }

  lemma HeldZero(s: Struct, f: string)
    requires f in s.fields
    ensures Held(s, StartJson(s, ZeroObject(s)), f) == ZeroJson(s.fields[f].kind)
  {
    hide ZeroJson;
  }

  /** Without case variants a field's entry is what its own key says. */
  lemma SoleEntry(reg: Registry, s: Struct, was: Json, o: map<string, Json>, f: string)
    requires f in s.fields && !Respelled(s, o, f)
    ensures Entry(reg, s, was, o, f) ==
            if f in o then PruneKind(reg, s.fields[f].kind, Held(s, StartJson(s, was), f), o[f]) else Held(s, StartJson(s, was), f)
  {
    SoleSpelling(reg, s, Zero(s.fields[f].kind), o, f);
    hide PruneKind, Held, ReadField, Spellings;
    if f in o { PruneOne(reg, s.fields[f].kind, Held(s, StartJson(s, was), f), o, f); }
  }

  /** A declared key with one case variant k reads the two in their order. */
  lemma OneVariantEntry(reg: Registry, s: Struct, was: Json, o: map<string, Json>, f: string, k: string)
    requires f in s.fields && k in o && IsVariant(s.fields.Keys, k, f)
    requires forall n :: n in o && IsVariant(s.fields.Keys, n, f) ==> n == k
    ensures var kind, h := s.fields[f].kind, Held(s, StartJson(s, was), f);
            Entry(reg, s, was, o, f) ==
            if f !in o then PruneKind(reg, kind, h, o[k])
            else if reg.late(o, k, f) then PruneKind(reg, kind, PruneKind(reg, kind, h, o[f]), o[k])
            else PruneKind(reg, kind, PruneKind(reg, kind, h, o[k]), o[f])
    ensures var keys := Spellings(reg, s.fields.Keys, o, f);
            keys != [] && keys[|keys| - 1] == if f in o && !reg.late(o, k, f) then f else k
  {
    TwoSpellings(reg, s.fields.Keys, o, f, k);
    var kind, h := s.fields[f].kind, Held(s, StartJson(s, was), f);
    hide PruneKind, Held, Spellings, PruneMembers;
    if f !in o {
      PruneOne(reg, kind, h, o, k);
    } else if reg.late(o, k, f) {
      PruneTwo(reg, kind, h, o, f, k);
    } else {
      PruneTwo(reg, kind, h, o, k, f);
    }
  }

  lemma PruneOne(reg: Registry, kind: Kind, was: Json, o: map<string, Json>, k: string)
    requires k in o
    ensures PruneMembers(reg, kind, was, o, [k]) == PruneKind(reg, kind, was, o[k])
  {
    hide PruneKind;
    assert [k][1..] == [];
    var e := PruneKind(reg, kind, was, o[k]);
    assert PruneMembers(reg, kind, e, o, []) == e;
  }

  lemma PruneTwo(reg: Registry, kind: Kind, was: Json, o: map<string, Json>, k: string, l: string)
    requires k in o && l in o
    ensures PruneMembers(reg, kind, was, o, [k, l]) == PruneKind(reg, kind, PruneKind(reg, kind, was, o[k]), o[l])
  {
    hide PruneKind;
    assert [k, l][1..] == [l];
    PruneOne(reg, kind, PruneKind(reg, kind, was, o[k]), o, l);
  }

  /** Pruning one value on its own does not change whether omitempty drops it. */
  lemma VacantPruned(reg: Registry, k: Kind, j: Json)
    requires Readable(reg.types, k, j)
    ensures Vacant(k, PrunedKind(reg, k, j)) == Vacant(k, j)
  {
    hide Pruned;
    if !j.Null? {
      match k
      case KTextMap =>
        assert Blanked(j.members).Keys == j.members.Keys;
        assert map[] + Blanked(j.members) == Blanked(j.members);
        if j.members != map[] { var n :| n in j.members; assert n in Blanked(j.members); }
      case KAnyMap => assert map[] + j.members == j.members;
      case KInline(s) => hide PruneStruct;
      case KPointer(t) => PrunedIsObject(reg, reg.types(t), ZeroObject(reg.types(t)), j); hide PruneStruct;
      case _ => hide PruneStruct;
    }
  }

  lemma PrunedIsObject(reg: Registry, s: Struct, was: Json, j: Json)
    requires was.Obj? || j.Obj?
    ensures PruneStruct(reg, s, was, j).Obj?
  {
    hide Survives, Entry;
  }

  /** Decoding and re-encoding prunes, for every document that decodes, every order of its members
      and every struct type. */
  lemma {:induction false} EncodeDecode(reg: Registry, s: Struct, d: Json)
    requires DecodeStruct(reg, s, d).Some?
    ensures HasStructType(reg, s, DecodeStruct(reg, s, d).value)
    ensures Encode(DecodeStruct(reg, s, d).value) == Pruned(reg, s, d)
    decreases d, 4
  {
    ZeroStructHasType(reg, s);
    EncodeZeroStruct(s);
    EncodeReadStruct(reg, s, ZeroStruct(s), d);
  }
}
