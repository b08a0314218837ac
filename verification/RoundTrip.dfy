/** Typed values through the wire and back: what decoding an encoded value gives. */
module RoundTrip {
  import opened Json
  import opened Schema
  import opened Codec
  import Prune

  /** No Extra, at any depth, holds a declared key. */
  ghost predicate Disjoint(v: Value) {
    match v
    case Ptr(t) => Disjoint(t)
    case StructSlice(vs) => forall i :: 0 <= i < |vs| ==> Disjoint(vs[i])
    case StructVal(s, fields, extra) =>
      && (extra.Some? ==> extra.value.Keys !! s.fields.Keys)
      && forall f :: f in fields ==> Disjoint(fields[f])
    case _ => true
  }

  /** No Extra, at any depth, holds a case variant of a declared key. */
  ghost predicate NoVariantExtra(v: Value) {
    match v
    case Ptr(t) => NoVariantExtra(t)
    case StructSlice(vs) => forall i :: 0 <= i < |vs| ==> NoVariantExtra(vs[i])
    case StructVal(s, fields, extra) =>
      && (extra.Some? ==> forall k, f :: k in extra.value && f in s.fields ==> !IsVariant(s.fields.Keys, k, f))
      && forall f :: f in fields ==> NoVariantExtra(fields[f])
    case _ => true
  }

  /** A Go value of kind k whose Extra keys cannot be taken for declared ones. */
  ghost predicate Typed(reg: Registry, k: Kind, v: Value) { HasType(reg, k, v) && Disjoint(v) && NoVariantExtra(v) }

  ghost predicate TypedStruct(reg: Registry, s: Struct, v: Value) { HasStructType(reg, s, v) && Disjoint(v) && NoVariantExtra(v) }

  /** The value as the wire can carry it: an optional field that holds an empty map or slice
      becomes nil, and so does an empty Extra. */
  function Tidy(v: Value): Value {
    match v
    case Ptr(t) => Ptr(Tidy(t))
    case StructSlice(vs) => StructSlice(seq(|vs|, i requires 0 <= i < |vs| => Tidy(vs[i])))
    case StructVal(s, fields, extra) =>
      StructVal(s,
                map f | f in fields :: if f in s.fields && s.fields[f].omitEmpty && Empty(fields[f]) then Blank(fields[f]) else Tidy(fields[f]),
                if extra == Some(map[]) then None else extra)
    case _ => v
  }

  function Blank(v: Value): Value {
    if v.AnyMap? || v.TextMap? || v.AnySlice? || v.StructSlice? then Nil else v
  }

  lemma {:induction false} DecodeEncodeKind(reg: Registry, k: Kind, v: Value)
    requires Typed(reg, k, v)
    ensures DecodeKind(reg, k, Encode(v)) == Some(Tidy(v))
    decreases v, 1
  {
    if v.Nil? || v == Any(Null) {
      assert !k.KInline?;
    } else {
      match k
      case KTextMap =>
        assert DecodeKind(reg, k, Encode(v)).value.t == v.t;
      case KAnyMap =>
        assert DecodeKind(reg, k, Encode(v)).value.m == v.m;
      case KInline(s) => DecodeEncode(reg, s, v);
      case KPointer(t) => DecodeEncode(reg, reg.types(t), v.target);
      case KSlice(t) =>
        forall i | 0 <= i < |v.vs|
          ensures DecodeStruct(reg, reg.types(t), Encode(v.vs[i])) == Some(Tidy(v.vs[i]))
        {
          DecodeEncode(reg, reg.types(t), v.vs[i]);
        }
        assert DecodeKind(reg, k, Encode(v)).value.vs == Tidy(v).vs;
      case _ =>
    }
  }

  /** What decoding finds of one field of an encoded value. */
  ghost predicate FieldReturns(reg: Registry, s: Struct, v: Value, f: string)
    requires v.StructVal? && Encode(v).Obj? && f in s.fields && f in v.fields
  {
    ReadField(reg, s, ZeroStruct(s), Encode(v).members, f) == Some(if Emitted(v, f) then Tidy(v.fields[f]) else Blank(v.fields[f]))
  }

  lemma ZeroIsBlank(reg: Registry, k: Kind, v: Value)
    requires HasType(reg, k, v) && Empty(v)
    ensures Zero(k) == Blank(v)
  {
  }

  lemma {:induction false} FieldDecodesEncoded(reg: Registry, s: Struct, v: Value, f: string)
    requires TypedStruct(reg, s, v) && f in s.fields
    ensures Encode(v).Obj? && FieldReturns(reg, s, v, f)
    decreases v, 0, 0
  {
    EncodedMember(v, f);
    var o, k := Encode(v).members, s.fields[f].kind;
    assert HasType(reg, k, v.fields[f]);
    forall n | n in o ensures !IsVariant(s.fields.Keys, n, f) { EncodedMember(v, n); }
    SoleSpelling(reg, s, ZeroStruct(s), o, f);
    assert FieldOf(s, Start(s, ZeroStruct(s)), f) == Zero(k);
    if Emitted(v, f) {
      DecodeEncodeKind(reg, k, v.fields[f]);
    } else {
      ZeroIsBlank(reg, k, v.fields[f]);
    }
  }

  /** Decoding an encoded value gives the value, tidied. */
  lemma {:induction false} DecodeEncode(reg: Registry, s: Struct, v: Value)
    requires TypedStruct(reg, s, v)
    ensures DecodeStruct(reg, s, Encode(v)) == Some(Tidy(v))
    decreases v, 0
  {
    EncodedMember(v, "");
    forall f | f in s.fields ensures FieldReturns(reg, s, v, f) {
      FieldDecodesEncoded(reg, s, v, f);
    }
    DecodeMembers(reg, s, v);
  }

  lemma DecodeMembers(reg: Registry, s: Struct, v: Value)
    requires TypedStruct(reg, s, v) && Encode(v).Obj?
    requires forall f :: f in s.fields ==> FieldReturns(reg, s, v, f)
    ensures DecodeStruct(reg, s, Encode(v)) == Some(Tidy(v))
  {
    hide Encode, ReadField, Empty, Zero, Blank, HasType, NoVariantExtra;
    RestOfEncoded(reg, s, v);
    hide Disjoint;
    var z, d := ZeroStruct(s), DecodeStruct(reg, s, Encode(v));
    assert forall f :: f in s.fields ==> ReadField(reg, s, z, Encode(v).members, f).Some?;
    assert d == ReadStruct(reg, s, z, Encode(v)) && d.Some? && d.value.StructVal?;
    assert d.value.fields == Tidy(v).fields;
  }

  /** The second pass of the decoder recovers exactly Extra. */
  lemma RestOfEncoded(reg: Registry, s: Struct, v: Value)
    requires HasStructType(reg, s, v) && (v.extra.Some? ==> v.extra.value.Keys !! s.fields.Keys) && Encode(v).Obj?
    ensures (if s.open then Rest(Encode(v).members, s.fields.Keys) else None) == if v.extra == Some(map[]) then None else v.extra
  {
    hide Encode;
    var r := Rest(Encode(v).members, s.fields.Keys);
    forall k: string
      ensures r.Some? && k in r.value <==> v.extra.Some? && k in v.extra.value
      ensures r.Some? && k in r.value ==> r.value[k] == v.extra.value[k]
    {
      EncodedMember(v, k);
    }
    if r.Some? && v.extra.Some? {
      assert r.value == v.extra.value;
    } else if r.Some? {
      var k :| k in r.value;
    } else if v.extra.Some? {
      assert v.extra.value == map[];
    }
  }

  // ----- decoded values -----

  /** No object read into a struct has a key that differs from a declared one by case alone. */
  ghost predicate NoVariants(reg: Registry, s: Struct, d: Json)
    decreases d, 0
  {
    d.Obj? ==>
      && (forall k, f :: k in d.members && f in s.fields ==> !IsVariant(s.fields.Keys, k, f))
      && (forall f :: f in s.fields && f in d.members ==> NoVariantsIn(reg, s.fields[f].kind, d.members[f]))
  }

  ghost predicate NoVariantsIn(reg: Registry, k: Kind, d: Json)
    decreases d, 1
  {
    match k
    case KInline(s) => NoVariants(reg, s, d)
    case KPointer(t) => NoVariants(reg, reg.types(t), d)
    case KSlice(t) => d.Arr? ==> forall i :: 0 <= i < |d.items| ==> NoVariants(reg, reg.types(t), d.items[i])
    case _ => true
  }

  lemma {:induction false} ZeroClean(k: Kind)
    ensures Disjoint(Zero(k)) && NoVariantExtra(Zero(k))
  {
    if k.KInline? { ZeroStructClean(k.struct); }
  }

  lemma {:induction false} ZeroStructClean(s: Struct)
    ensures Disjoint(ZeroStruct(s)) && NoVariantExtra(ZeroStruct(s))
  {
    forall f | f in s.fields ensures Disjoint(Zero(s.fields[f].kind)) && NoVariantExtra(Zero(s.fields[f].kind)) {
      ZeroClean(s.fields[f].kind);
    }
  }

  lemma {:induction false} ReadClean(reg: Registry, k: Kind, was: Value, j: Json)
    requires ReadInto(reg, k, was, j).Some? && Disjoint(was)
    ensures var v := ReadInto(reg, k, was, j).value;
            Disjoint(v) && (NoVariantExtra(was) && NoVariantsIn(reg, k, j) ==> NoVariantExtra(v))
    decreases j, 5
  {
    ZeroClean(k);
    if !j.Null? {
      match k
      case KInline(s) => ReadStructClean(reg, s, was, j);
      case KPointer(t) =>
        ZeroStructClean(reg.types(t));
        ReadStructClean(reg, reg.types(t), if was.Ptr? then was.target else ZeroStruct(reg.types(t)), j);
      case KSlice(t) =>
        ZeroStructClean(reg.types(t));
        forall n | 0 <= n < |j.items|
          ensures var v := DecodeStruct(reg, reg.types(t), j.items[n]).value;
                  Disjoint(v) && (NoVariants(reg, reg.types(t), j.items[n]) ==> NoVariantExtra(v))
        {
          ReadStructClean(reg, reg.types(t), ZeroStruct(reg.types(t)), j.items[n]);
        }
      case _ =>
    }
  }

  lemma {:induction false} ReadMembersClean(reg: Registry, k: Kind, was: Value, o: map<string, Json>, keys: seq<string>)
    requires forall n :: n in keys ==> n in o
    requires ReadMembers(reg, k, was, o, keys).Some? && Disjoint(was)
    ensures var v := ReadMembers(reg, k, was, o, keys).value;
            Disjoint(v) && (NoVariantExtra(was) && (forall n :: n in keys ==> NoVariantsIn(reg, k, o[n])) ==> NoVariantExtra(v))
    decreases Obj(o), 1, |keys|
  {
    if keys != [] {
      hide ReadInto, Disjoint, NoVariantExtra, NoVariantsIn;
      ReadClean(reg, k, was, o[keys[0]]);
      ReadMembersClean(reg, k, ReadInto(reg, k, was, o[keys[0]]).value, o, keys[1..]);
    }
  }

  lemma {:induction false} ReadFieldClean(reg: Registry, s: Struct, was: Value, o: map<string, Json>, f: string)
    requires f in s.fields && ReadField(reg, s, was, o, f).Some? && Disjoint(was)
    ensures var v := ReadField(reg, s, was, o, f).value;
            Disjoint(v) && (NoVariantExtra(was) && NoVariants(reg, s, Obj(o)) ==> NoVariantExtra(v))
    decreases Obj(o), 2
  {
    var start := Start(s, was);
    ZeroStructClean(s);
    ZeroClean(s.fields[f].kind);
    ReadMembersClean(reg, s.fields[f].kind, FieldOf(s, start, f), o, Spellings(reg, s.fields.Keys, o, f));
  }

  lemma {:induction false} ReadStructClean(reg: Registry, s: Struct, was: Value, j: Json)
    requires ReadStruct(reg, s, was, j).Some? && Disjoint(was)
    ensures var v := ReadStruct(reg, s, was, j).value;
            Disjoint(v) && (NoVariantExtra(was) && NoVariants(reg, s, j) ==> NoVariantExtra(v))
    decreases j, 3
  {
    if j.Null? {
      ZeroStructClean(s);
    } else {
      var v := ReadStruct(reg, s, was, j).value;
      forall f | f in s.fields
        ensures Disjoint(v.fields[f]) && (NoVariantExtra(was) && NoVariants(reg, s, j) ==> NoVariantExtra(v.fields[f]))
      {
        ReadFieldClean(reg, s, was, j.members, f);
        hide ReadField, Disjoint, NoVariantExtra;
      }
      hide ReadField, Disjoint, NoVariantExtra;
      StructClean(reg, s, j.members, v);
    }
  }

  /** The second pass leaves only undeclared keys in Extra. */
  lemma StructClean(reg: Registry, s: Struct, o: map<string, Json>, v: Value)
    requires v.StructVal? && v.typ == s && v.fields.Keys == s.fields.Keys
    requires v.extra == if s.open then Rest(o, s.fields.Keys) else None
    requires forall f :: f in s.fields ==> Disjoint(v.fields[f])
    ensures Disjoint(v)
    ensures NoVariants(reg, s, Obj(o)) && (forall f :: f in s.fields ==> NoVariantExtra(v.fields[f])) ==> NoVariantExtra(v)
  {
  }

  /** Decoding any document gives a value of its Go type whose Extra, at any depth, holds no declared key;
      nor does it hold a case variant of one if the document has none. */
  lemma DecodedTyped(reg: Registry, s: Struct, d: Json)
    requires DecodeStruct(reg, s, d).Some?
    ensures var v := DecodeStruct(reg, s, d).value;
            HasStructType(reg, s, v) && Disjoint(v) && (NoVariants(reg, s, d) ==> NoVariantExtra(v))
  {
    hide ReadStruct;
    ZeroStructClean(s);
    ReadStructClean(reg, s, ZeroStruct(s), d);
    Prune.EncodeDecode(reg, s, d);
  }

  // ----- tidying is invisible on the wire -----

  /** One field of a tidied struct. */
  function TidyField(s: Struct, f: string, x: Value): Value {
    if f in s.fields && s.fields[f].omitEmpty && Empty(x) then Blank(x) else Tidy(x)
  }

  lemma TidyFields(v: Value)
    requires v.StructVal?
    ensures var w := Tidy(v);
            && w.StructVal? && w.typ == v.typ && w.fields.Keys == v.fields.Keys
            && w.extra == (if v.extra == Some(map[]) then None else v.extra)
            && forall f :: f in v.fields ==> w.fields[f] == TidyField(v.typ, f, v.fields[f])
  {
  }

  lemma EmptyTidied(v: Value)
    ensures Blank(v).Nil? || Blank(v) == v
    ensures Empty(v) ==> Empty(Blank(v)) && Tidy(v) == v && Blank(Blank(v)) == Blank(v)
  {
  }

  lemma {:induction false} EncodeTidy(v: Value)
    ensures Encode(Tidy(v)) == Encode(v)
    ensures Empty(Tidy(v)) == Empty(v)
  {
    match v
    case Ptr(t) => EncodeTidy(t);
    case StructSlice(vs) =>
      forall i | 0 <= i < |vs| ensures Encode(Tidy(vs[i])) == Encode(vs[i]) { EncodeTidy(vs[i]); }
      assert Encode(Tidy(v)).items == Encode(v).items;
    case StructVal(s, fields, extra) =>
      forall f | f in fields ensures Encode(Tidy(fields[f])) == Encode(fields[f]) && Empty(Tidy(fields[f])) == Empty(fields[f]) {
        EncodeTidy(fields[f]);
      }
      EncodeTidyStruct(v);
    case _ =>
  }

  lemma EncodeTidyStruct(v: Value)
    requires v.StructVal?
    requires forall f :: f in v.fields ==> Encode(Tidy(v.fields[f])) == Encode(v.fields[f]) && Empty(Tidy(v.fields[f])) == Empty(v.fields[f])
    ensures Encode(Tidy(v)) == Encode(v) && Empty(Tidy(v)) == Empty(v)
  {
    var w := Tidy(v);
    TidyFields(v);
    forall f | f in v.fields ensures Emitted(w, f) == Emitted(v, f) && (Emitted(v, f) ==> Encode(w.fields[f]) == Encode(v.fields[f])) {
      EmptyTidied(v.fields[f]);
      hide Tidy, Encode, Empty, Blank;
    }
    hide Tidy, Encode, Blank, Emitted;
    SameEncoding(v, w);
  }

  lemma SameEncoding(v: Value, w: Value)
    requires v.StructVal? && w.StructVal? && w.fields.Keys == v.fields.Keys
    requires w.extra == if v.extra == Some(map[]) then None else v.extra
    requires forall f :: f in v.fields ==> Emitted(w, f) == Emitted(v, f) && (Emitted(v, f) ==> Encode(w.fields[f]) == Encode(v.fields[f]))
    ensures Encode(w) == Encode(v)
  {
    EncodedMember(v, "");
    EncodedMember(w, "");
    forall k: string
      ensures k in Encode(w).members <==> k in Encode(v).members
      ensures k in Encode(v).members ==> Encode(w).members[k] == Encode(v).members[k]
    {
      EncodedMember(v, k);
      EncodedMember(w, k);
      assert Emitted(w, k) == Emitted(v, k);
      hide Encode, Empty;
    }
    assert Encode(w).members == Encode(v).members;
  }

  lemma {:induction false} TidyTwice(v: Value)
    ensures Tidy(Tidy(v)) == Tidy(v)
  {
    match v
    case Ptr(t) => TidyTwice(t);
    case StructSlice(vs) =>
      forall i | 0 <= i < |vs| ensures Tidy(Tidy(vs[i])) == Tidy(vs[i]) { TidyTwice(vs[i]); }
      assert Tidy(Tidy(v)).vs == Tidy(v).vs;
    case StructVal(s, fields, extra) =>
      forall f | f in fields ensures Tidy(Tidy(fields[f])) == Tidy(fields[f]) { TidyTwice(fields[f]); }
      TidyTwiceStruct(v);
    case _ =>
  }

  lemma TidyTwiceStruct(v: Value)
    requires v.StructVal? && forall f :: f in v.fields ==> Tidy(Tidy(v.fields[f])) == Tidy(v.fields[f])
    ensures Tidy(Tidy(v)) == Tidy(v)
  {
    var w := Tidy(v);
    TidyFields(v);
    TidyFields(w);
    forall f | f in v.fields ensures Tidy(w).fields[f] == w.fields[f] {
      EmptyTidied(v.fields[f]);
      EncodeTidy(v.fields[f]);
      hide Tidy, Encode;
    }
    assert Tidy(w).fields == w.fields;
  }

  // ----- main results -----

  /** An empty map or slice in an optional field, which the wire cannot tell from nil. */
  predicate EmptyOptional(s: Struct, f: string, x: Value) {
    f in s.fields && s.fields[f].omitEmpty && x in {AnyMap(map[]), TextMap(map[]), AnySlice([]), StructSlice([])}
  }

  /** No empty map or slice in an optional field and no empty Extra, at any depth. */
  ghost predicate Canonical(v: Value) {
    match v
    case Ptr(t) => Canonical(t)
    case StructSlice(vs) => forall i :: 0 <= i < |vs| ==> Canonical(vs[i])
    case StructVal(s, fields, extra) => extra != Some(map[]) && forall f :: f in fields ==> Canonical(fields[f]) && !EmptyOptional(s, f, fields[f])
    case _ => true
  }

  lemma {:induction false} CanonicalIffTidy(v: Value)
    ensures Canonical(v) <==> Tidy(v) == v
  {
    match v
    case Ptr(t) => CanonicalIffTidy(t);
    case StructSlice(vs) =>
      forall i | 0 <= i < |vs| ensures Canonical(vs[i]) <==> Tidy(vs[i]) == vs[i] { CanonicalIffTidy(vs[i]); }
      if Canonical(v) { assert Tidy(v).vs == vs; }
      if Tidy(v) == v { forall i | 0 <= i < |vs| ensures Tidy(vs[i]) == vs[i] { assert Tidy(v).vs[i] == vs[i]; } }
    case StructVal(s, fields, extra) =>
      forall f | f in fields ensures Canonical(fields[f]) <==> Tidy(fields[f]) == fields[f] { CanonicalIffTidy(fields[f]); }
      CanonicalIffTidyStruct(v);
    case _ =>
  }

  lemma CanonicalField(s: Struct, f: string, x: Value)
    requires Canonical(x) <==> Tidy(x) == x
    ensures TidyField(s, f, x) == x <==> Canonical(x) && !EmptyOptional(s, f, x)
  {
    EmptyTidied(x);
    hide Tidy;
  }

  lemma CanonicalIffTidyStruct(v: Value)
    requires v.StructVal? && forall f :: f in v.fields ==> (Canonical(v.fields[f]) <==> Tidy(v.fields[f]) == v.fields[f])
    ensures Canonical(v) <==> Tidy(v) == v
  {
    var s, w := v.typ, Tidy(v);
    TidyFields(v);
    hide Tidy, TidyField, EmptyOptional;
    forall f | f in v.fields ensures w.fields[f] == v.fields[f] <==> Canonical(v.fields[f]) && !EmptyOptional(s, f, v.fields[f]) {
      CanonicalField(s, f, v.fields[f]);
    }
    if Canonical(v) { assert w.fields == v.fields; }
  }

  /** A value of its Go type without case variants in Extra comes back unchanged exactly when it is
      canonical and no Extra holds a declared key. */
  lemma RoundTripIffCanonical(reg: Registry, s: Struct, v: Value)
    requires HasStructType(reg, s, v) && NoVariantExtra(v)
    ensures DecodeStruct(reg, s, Encode(v)) == Some(v) <==> Disjoint(v) && Canonical(v)
  {
    hide DecodeStruct, Encode, HasStructType, NoVariantExtra, Disjoint, Canonical, Tidy;
    if Disjoint(v) {
      DecodeEncode(reg, s, v);
      CanonicalIffTidy(v);
    } else if DecodeStruct(reg, s, Encode(v)).Some? {
      DecodedTyped(reg, s, Encode(v));
    }
  }

  /** Re-decoding a re-encoded document gives the canonical form of what was first decoded, and
      encoding after decoding is idempotent. */
  lemma Idempotent(reg: Registry, s: Struct, d: Json)
    requires DecodeStruct(reg, s, d).Some? && NoVariants(reg, s, d)
    ensures var e := Encode(DecodeStruct(reg, s, d).value);
            && DecodeStruct(reg, s, e) == Some(Tidy(DecodeStruct(reg, s, d).value))
            && Encode(DecodeStruct(reg, s, e).value) == e
            && Canonical(DecodeStruct(reg, s, e).value)
            && e == Prune.Pruned(reg, s, d) == Prune.Pruned(reg, s, e)
  {
    hide DecodeStruct, Encode, HasStructType, NoVariantExtra, Disjoint, Canonical, Tidy, NoVariants;
    var v := DecodeStruct(reg, s, d).value;
    DecodedTyped(reg, s, d);
    DecodeEncode(reg, s, v);
    EncodeTidy(v);
    TidyTwice(v);
    CanonicalIffTidy(Tidy(v));
    Prune.EncodeDecode(reg, s, d);
    Prune.EncodeDecode(reg, s, Encode(v));
  }
}
