/** The wire codec of rift/json.go over encoding/json: two passes per open struct, one into the
    declared fields, member by member in the order of the text, and one into Extra. Generic over the
    struct types, as the Go helpers are. */
module Codec {
  import opened Json
  import opened Schema

  /** A Go value of a model type. A nil pointer, map or slice is Nil; a nil interface is
      Any(Null), which is also how a nil inside free-form JSON is written. */
  datatype Value =
    | Any(j: Json)
    | Text(s: string)
    | Flag(b: bool)
    | Number(i: int)
    | Nil
    | Ptr(target: Value)
    | AnyMap(m: map<string, Json>)
    | TextMap(t: map<string, string>)
    | AnySlice(js: seq<Json>)
    | StructSlice(vs: seq<Value>)
    | StructVal(typ: Struct, fields: map<string, Value>, extra: Option<map<string, Json>>)

  // ----- key lookup -----

  /** The case folding of encoding/json: ASCII letters, and the two non-ASCII runes that fold to
      an ASCII letter (the long s and the Kelvin sign). */
  function FoldChar(c: char): char {
    if 'a' <= c <= 'z' then c - 'a' + 'A'
    else if c == '\U{017F}' then 'S'
    else if c == '\U{212A}' then 'K'
    else c
  }

  function Fold(s: string): (r: string)
    ensures |r| == |s| && forall i :: 0 <= i < |s| ==> r[i] == FoldChar(s[i])
  {
    seq(|s|, i requires 0 <= i < |s| => FoldChar(s[i]))
  }

  /** Key k is undeclared, yet encoding/json reads it into the declared field f. */
  predicate IsVariant(known: set<string>, k: string, f: string) { k !in known && Fold(k) == Fold(f) }

  /** Some member of the object is a case variant of the declared key f. */
  predicate Respelled(s: Struct, o: map<string, Json>, f: string) { exists k :: k in o && IsVariant(s.fields.Keys, k, f) }

  /** Some order of a set of names. */
  ghost function Listing(ks: set<string>): (l: seq<string>)
    ensures |l| == |ks| && forall k :: k in l <==> k in ks
  {
    if ks == {} then [] else var k :| k in ks; [k] + Listing(ks - {k})
  }

  ghost function Variants(reg: Registry, known: set<string>, o: map<string, Json>, f: string, late: bool): set<string> {
    set k | k in o && IsVariant(known, k, f) && reg.late(o, k, f) == late
  }

  /** The members read into the declared field f, in the order they are read: the variants before the
      declared key, the declared key itself, the variants after it. */
  ghost function Spellings(reg: Registry, known: set<string>, o: map<string, Json>, f: string): (r: seq<string>)
    ensures forall k :: k in r <==> k in o && (k == f || IsVariant(known, k, f))
  {
    Listing(Variants(reg, known, o, f, false)) + (if f in o then [f] else []) + Listing(Variants(reg, known, o, f, true))
  }

  // ----- decoding -----

  function Zero(k: Kind): Value {
    match k
    case KAny => Any(Null)
    case KText => Text("")
    case KFlag => Flag(false)
    case KInt(_, _) => Number(0)
    case KInline(s) => ZeroStruct(s)
    case _ => Nil
  }

  function ZeroStruct(s: Struct): Value {
    StructVal(s, map f | f in s.fields :: Zero(s.fields[f].kind), None)
  }

  /** An integer in range. */
  predicate IsInt(j: Json, below: nat, above: nat) {
    j.Num? && j.r == j.r.Floor as real && 0 - below <= j.r.Floor <= above
  }

  /** null leaves strings, booleans, numbers and closed structs as they are; any other field it resets. */
  predicate KeepsOnNull(k: Kind) { k.KText? || k.KFlag? || k.KInt? || (k.KInline? && !k.struct.open) }

  /** Reading j into a field of kind k that holds was. Maps and closed structs are filled further, an
      open struct is overwritten by its UnmarshalJSON, and so is every element of a slice. */
  ghost function ReadInto(reg: Registry, k: Kind, was: Value, j: Json): Option<Value>
    decreases j, 5
  {
    if j.Null? then Some(if KeepsOnNull(k) then was else Zero(k)) else
    match k
    case KAny => Some(Any(j))
    case KText => if j.Str? then Some(Text(j.s)) else None
    case KFlag => if j.Bool? then Some(Flag(j.b)) else None
    case KInt(below, above) => if IsInt(j, below, above) then Some(Number(j.r.Floor)) else None
    case KFlagPtr => if j.Bool? then Some(Ptr(Flag(j.b))) else None
    case KIntPtr(below, above) => if IsInt(j, below, above) then Some(Ptr(Number(j.r.Floor))) else None
    case KAnyMap => if j.Obj? then Some(AnyMap((if was.AnyMap? then was.m else map[]) + j.members)) else None
    case KTextMap => if IsTextObject(j) then Some(TextMap((if was.TextMap? then was.t else map[]) + Texts(j.members))) else None
    case KAnySlice => if j.Arr? then Some(AnySlice(j.items)) else None
    case KInline(s) => ReadStruct(reg, s, was, j)
    case KPointer(t) =>
      var d := ReadStruct(reg, reg.types(t), if was.Ptr? then was.target else ZeroStruct(reg.types(t)), j);
      if d.Some? then Some(Ptr(d.value)) else None
    case KSlice(t) =>
      if j.Arr? && forall n :: 0 <= n < |j.items| ==> DecodeStruct(reg, reg.types(t), j.items[n]).Some?
      then Some(StructSlice(seq(|j.items|, n requires 0 <= n < |j.items| => DecodeStruct(reg, reg.types(t), j.items[n]).value)))
      else None
  }

  predicate IsTextObject(j: Json) { j.Obj? && forall n :: n in j.members ==> j.members[n].Str? || j.members[n].Null? }

  /** The entries of a map[string]string; null is read as "". */
  function Texts(m: map<string, Json>): map<string, string> { map n | n in m :: if m[n].Str? then m[n].s else "" }

  /** What unmarshalWithExtra leaves in *extra: the undeclared keys, nil when there are none. */
  function Rest(all: map<string, Json>, known: set<string>): (r: Option<map<string, Json>>)
    ensures forall k :: r.Some? && k in r.value <==> k in all && k !in known
    ensures r.Some? ==> r.value != map[] && forall k :: k in r.value ==> r.value[k] == all[k]
  {
    var rest := map k | k in all && k !in known :: all[k];
    assert forall k :: k in rest <==> k in all && k !in known;
    if rest == map[] then None else Some(rest)
  }

  /** Reading j over a struct. An open one starts from zero, captures every undeclared key into Extra and
      takes null for the zero value; a closed one keeps what the document does not mention. */
  ghost function ReadStruct(reg: Registry, s: Struct, was: Value, j: Json): Option<Value>
    decreases j, 3
  {
    if j.Null? then Some(Start(s, was))
    else if !j.Obj? then None
    else
      var o := j.members;
      if forall f :: f in s.fields ==> ReadField(reg, s, was, o, f).Some? then
        Some(StructVal(s, map f | f in s.fields :: ReadField(reg, s, was, o, f).value, if s.open then Rest(o, s.fields.Keys) else None))
      else None
  }

  /** Reading an object's members into the declared field f. */
  ghost function ReadField(reg: Registry, s: Struct, was: Value, o: map<string, Json>, f: string): Option<Value>
    requires f in s.fields
    decreases Obj(o), 2
  {
    ReadMembers(reg, s.fields[f].kind, FieldOf(s, Start(s, was), f), o, Spellings(reg, s.fields.Keys, o, f))
  }

  /** What a struct holds when its first member is read. */
  function Start(s: Struct, was: Value): Value { if s.open then ZeroStruct(s) else was }

  function FieldOf(s: Struct, v: Value, f: string): Value
    requires f in s.fields
  {
    if v.StructVal? && f in v.fields then v.fields[f] else Zero(s.fields[f].kind)
  }

  /** Reading the members with the given keys one after another into one field. */
  ghost function ReadMembers(reg: Registry, k: Kind, was: Value, o: map<string, Json>, keys: seq<string>): Option<Value>
    requires forall n :: n in keys ==> n in o
    decreases Obj(o), 1, |keys|
  {
    if keys == [] then Some(was)
    else
      var r := ReadInto(reg, k, was, o[keys[0]]);
      if r.Some? then ReadMembers(reg, k, r.value, o, keys[1..]) else None
  }

  /** json.Unmarshal into a new struct. */
  ghost function DecodeStruct(reg: Registry, s: Struct, j: Json): Option<Value>
    decreases j, 4
  {
    ReadStruct(reg, s, ZeroStruct(s), j)
  }

  ghost function DecodeKind(reg: Registry, k: Kind, j: Json): Option<Value> { ReadInto(reg, k, Zero(k), j) }

  /** Which documents decode at all, whatever the order of their members: every member that is read
      into a declared field, under any spelling, must suit it. */
  predicate Readable(types: TypeName -> Struct, k: Kind, j: Json)
    decreases j, 2
  {
    j.Null? ||
    match k
    case KAny => true
    case KText => j.Str?
    case KFlag => j.Bool?
    case KInt(below, above) => IsInt(j, below, above)
    case KFlagPtr => j.Bool?
    case KIntPtr(below, above) => IsInt(j, below, above)
    case KAnyMap => j.Obj?
    case KTextMap => IsTextObject(j)
    case KAnySlice => j.Arr?
    case KInline(s) => ReadableStruct(types, s, j)
    case KPointer(t) => ReadableStruct(types, types(t), j)
    case KSlice(t) => j.Arr? && forall n :: 0 <= n < |j.items| ==> ReadableStruct(types, types(t), j.items[n])
  }

  predicate ReadableStruct(types: TypeName -> Struct, s: Struct, j: Json)
    decreases j, 1
  {
    j.Null? || (j.Obj? && forall f :: f in s.fields ==> ReadableField(types, s, j.members, f))
  }

  predicate ReadableField(types: TypeName -> Struct, s: Struct, o: map<string, Json>, f: string)
    requires f in s.fields
    decreases Obj(o), 0
  {
    forall n :: n in o && (n == f || IsVariant(s.fields.Keys, n, f)) ==> Readable(types, s.fields[f].kind, o[n])
  }

  lemma {:induction false} ReadsIfReadable(reg: Registry, k: Kind, was: Value, j: Json)
    ensures ReadInto(reg, k, was, j).Some? <==> Readable(reg.types, k, j)
    decreases j, 4
  {
    match k
    case KInline(s) => DecodesIffReadable(reg, s, was, j);
    case KPointer(t) => DecodesIffReadable(reg, reg.types(t), if was.Ptr? then was.target else ZeroStruct(reg.types(t)), j);
    case KSlice(t) =>
      if j.Arr? {
        forall n | 0 <= n < |j.items|
          ensures DecodeStruct(reg, reg.types(t), j.items[n]).Some? <==> ReadableStruct(reg.types, reg.types(t), j.items[n])
        {
          DecodesIffReadable(reg, reg.types(t), ZeroStruct(reg.types(t)), j.items[n]);
        }
      }
    case _ =>
  }

  lemma {:induction false} MembersReadIfReadable(reg: Registry, k: Kind, was: Value, o: map<string, Json>, keys: seq<string>)
    requires forall n :: n in keys ==> n in o
    ensures ReadMembers(reg, k, was, o, keys).Some? <==> forall n :: n in keys ==> Readable(reg.types, k, o[n])
    decreases Obj(o), 1, |keys|
  {
    if keys != [] {
      ReadsIfReadable(reg, k, was, o[keys[0]]);
      var r := ReadInto(reg, k, was, o[keys[0]]);
      if r.Some? { MembersReadIfReadable(reg, k, r.value, o, keys[1..]); }
      assert keys == [keys[0]] + keys[1..];
    }
  }

  lemma {:induction false} FieldReadsIfReadable(reg: Registry, s: Struct, was: Value, o: map<string, Json>, f: string)
    requires f in s.fields
    ensures ReadField(reg, s, was, o, f).Some? <==> ReadableField(reg.types, s, o, f)
    decreases Obj(o), 2
  {
    MembersReadIfReadable(reg, s.fields[f].kind, FieldOf(s, Start(s, was), f), o, Spellings(reg, s.fields.Keys, o, f));
  }

  /** Whether a document decodes depends neither on the order of its members nor on what is there before. */
  lemma {:induction false} DecodesIffReadable(reg: Registry, s: Struct, was: Value, j: Json)
    ensures ReadStruct(reg, s, was, j).Some? <==> ReadableStruct(reg.types, s, j)
    decreases j, 3
  {
    if j.Obj? {
      forall f | f in s.fields ensures ReadField(reg, s, was, j.members, f).Some? <==> ReadableField(reg.types, s, j.members, f) {
        FieldReadsIfReadable(reg, s, was, j.members, f);
      }
      hide ReadField, ReadableField;
    }
  }

  lemma DecodedIsStruct(reg: Registry, s: Struct, j: Json)
    requires DecodeStruct(reg, s, j).Some?
    ensures DecodeStruct(reg, s, j).value.StructVal? && DecodeStruct(reg, s, j).value.typ == s
  {
    hide ReadField;
  }

  lemma DecodeIsRead(reg: Registry, s: Struct, j: Json)
    ensures DecodeStruct(reg, s, j) == ReadStruct(reg, s, ZeroStruct(s), j)
  {
    hide ReadStruct;
  }

  lemma ListingOne(ks: set<string>, k: string)
    requires forall n :: n in ks <==> n == k
    ensures Listing(ks) == [k]
  {
    assert ks == {k};
    assert Listing(ks)[0] in Listing(ks);
  }

  /** A declared key with one case variant k is read from the two in order. */
  lemma TwoSpellings(reg: Registry, known: set<string>, o: map<string, Json>, f: string, k: string)
    requires k in o && IsVariant(known, k, f) && forall n :: n in o && IsVariant(known, n, f) ==> n == k
    ensures Spellings(reg, known, o, f) == if f !in o then [k] else if reg.late(o, k, f) then [f, k] else [k, f]
  {
    var late := reg.late(o, k, f);
    assert Variants(reg, known, o, f, !late) == {};
    ListingOne(Variants(reg, known, o, f, late), k);
  }

  /** Without case variants a declared field is read from its own key alone. */
  lemma SoleSpelling(reg: Registry, s: Struct, was: Value, o: map<string, Json>, f: string)
    requires f in s.fields && !Respelled(s, o, f)
    ensures Spellings(reg, s.fields.Keys, o, f) == if f in o then [f] else []
    ensures f in o ==> ReadField(reg, s, was, o, f) == ReadInto(reg, s.fields[f].kind, FieldOf(s, Start(s, was), f), o[f])
    ensures f !in o ==> ReadField(reg, s, was, o, f) == Some(FieldOf(s, Start(s, was), f))
  {
    assert Variants(reg, s.fields.Keys, o, f, false) == Variants(reg, s.fields.Keys, o, f, true) == {};
    hide ReadInto;
    if f in o {
      var r := ReadInto(reg, s.fields[f].kind, FieldOf(s, Start(s, was), f), o[f]);
      assert [f][1..] == [];
      assert r.Some? ==> ReadMembers(reg, s.fields[f].kind, r.value, o, []) == r;
    }
  }

  // ----- encoding -----

  /** `isEmptyValue` of encoding/json: what `omitempty` leaves out. */
  predicate Empty(v: Value) {
    match v
    case Any(j) => j.Null?
    case Text(s) => s == ""
    case Flag(b) => !b
    case Number(i) => i == 0
    case Nil => true
    case Ptr(_) => false
    case AnyMap(m) => m == map[]
    case TextMap(t) => t == map[]
    case AnySlice(js) => js == []
    case StructSlice(vs) => vs == []
    case StructVal(_, _, _) => false
  }

  function Encode(v: Value): Json {
    match v
    case Any(j) => j
    case Text(s) => Str(s)
    case Flag(b) => Bool(b)
    case Number(i) => Num(i as real)
    case Nil => Null
    case Ptr(t) => Encode(t)
    case AnyMap(m) => Obj(m)
    case TextMap(t) => Obj(map k | k in t :: Str(t[k]))
    case AnySlice(js) => Arr(js)
    case StructSlice(vs) => Arr(seq(|vs|, i requires 0 <= i < |vs| => Encode(vs[i])))
    case StructVal(s, fields, extra) =>
      Obj(MergeExtra(
            map f | f in fields && f in s.fields && !(s.fields[f].omitEmpty && Empty(fields[f])) :: Encode(fields[f]),
            if extra.Some? then extra.value else map[]))
  }

  /** Declared keys that were emitted win; every other Extra key is added. */
  function MergeExtra(emitted: map<string, Json>, extra: map<string, Json>): map<string, Json> {
    map k | k in emitted.Keys + extra.Keys :: if k in emitted then emitted[k] else extra[k]
  }

  /** The field is written by the first pass of marshalWithExtra. */
  predicate Emitted(v: Value, k: string)
    requires v.StructVal?
  {
    k in v.fields && k in v.typ.fields && !(v.typ.fields[k].omitEmpty && Empty(v.fields[k]))
  }

  // ----- types of values -----

  /** v is a Go value of kind k. */
  ghost predicate HasType(reg: Registry, k: Kind, v: Value)
    decreases v, 1
  {
    match k
    case KAny => v.Any?
    case KText => v.Text?
    case KFlag => v.Flag?
    case KInt(below, above) => v.Number? && 0 - below <= v.i <= above
    case KFlagPtr => v.Nil? || (v.Ptr? && v.target.Flag?)
    case KIntPtr(below, above) => v.Nil? || (v.Ptr? && v.target.Number? && 0 - below <= v.target.i <= above)
    case KAnyMap => v.Nil? || v.AnyMap?
    case KTextMap => v.Nil? || v.TextMap?
    case KAnySlice => v.Nil? || v.AnySlice?
    case KInline(s) => HasStructType(reg, s, v)
    case KPointer(t) => v.Nil? || (v.Ptr? && HasStructType(reg, reg.types(t), v.target))
    case KSlice(t) => v.Nil? || (v.StructSlice? && forall i :: 0 <= i < |v.vs| ==> HasStructType(reg, reg.types(t), v.vs[i]))
  }

  /** Only open structs have an Extra. */
  ghost predicate HasStructType(reg: Registry, s: Struct, v: Value)
    decreases v, 0
  {
    && v.StructVal? && v.typ == s && v.fields.Keys == s.fields.Keys
    && (forall f :: f in s.fields ==> HasType(reg, s.fields[f].kind, v.fields[f]))
    && (v.extra.Some? ==> s.open)
  }

  lemma {:induction false} ZeroHasType(reg: Registry, k: Kind)
    ensures HasType(reg, k, Zero(k))
  {
    if k.KInline? { ZeroStructHasType(reg, k.struct); }
  }

  lemma {:induction false} ZeroStructHasType(reg: Registry, s: Struct)
    ensures HasStructType(reg, s, ZeroStruct(s))
  {
    forall f | f in s.fields ensures HasType(reg, s.fields[f].kind, Zero(s.fields[f].kind)) {
      ZeroHasType(reg, s.fields[f].kind);
    }
  }

  /** Every member of an encoded struct: an emitted field, or an Extra key that no emitted field
      claims, so an omitted zero field does not shadow Extra. */
  lemma EncodedMember(v: Value, k: string)
    requires v.StructVal?
    ensures Encode(v).Obj?
    ensures Emitted(v, k) ==> k in Encode(v).members && Encode(v).members[k] == Encode(v.fields[k])
    ensures !Emitted(v, k) ==> (k in Encode(v).members <==> v.extra.Some? && k in v.extra.value)
    ensures !Emitted(v, k) && v.extra.Some? && k in v.extra.value ==> Encode(v).members[k] == v.extra.value[k]
  {
  }
}
