/** Exactly which typed values come back from the wire, Extra maps with case variants of declared keys
    included: the declared field and the variant are then both read into the field. */
module ExtraVariants {
  import opened Json
  import opened Schema
  import opened Codec
  import opened Prune
  import opened Idempotence
  import RiftModel
  import RoundTrip

  function ExtraOf(v: Value): map<string, Json> { if v.StructVal? && v.extra.Some? then v.extra.value else map[] }

  /** k is a case variant of f in v's Extra. */
  predicate Respells(v: Value, f: string, k: string)
    requires v.StructVal?
  {
    k in ExtraOf(v) && IsVariant(v.typ.fields.Keys, k, f)
  }

  /** At most one case variant of each declared key in an Extra, and none beside a closed struct that is written. */
  ghost predicate FewVariants(reg: Registry, v: Value) {
    match v
    case Ptr(t) => FewVariants(reg, t)
    case StructSlice(vs) => forall i :: 0 <= i < |vs| ==> FewVariants(reg, vs[i])
    case StructVal(s, fields, extra) => forall f :: f in fields ==> (f in s.fields ==> FewVariantsOf(reg, v, f)) && FewVariants(reg, fields[f])
    case _ => true
  }

  ghost predicate FewVariantsOf(reg: Registry, v: Value, f: string)
    requires v.StructVal? && f in v.fields && f in v.typ.fields
  {
    && (forall j, k :: Respells(v, f, j) && Respells(v, f, k) ==> j == k)
    && (Emitted(v, f) && FillsStruct(reg, v.typ.fields[f].kind) ==> forall k :: !Respells(v, f, k))
  }

  // ----- the condition -----

  /** v comes back unchanged: no Extra is empty or holds a declared key, and every field comes back. */
  ghost predicate Returns(reg: Registry, v: Value)
    decreases v, 1
  {
    match v
    case Ptr(t) => Returns(reg, t)
    case StructSlice(vs) => forall i :: 0 <= i < |vs| ==> Returns(reg, vs[i])
    case StructVal(s, fields, extra) => SoundExtra(v) && forall f :: f in fields && f in s.fields ==> FieldReturns(reg, v, f)
    case _ => true
  }

  predicate SoundExtra(v: Value)
    requires v.StructVal?
  {
    v.extra != Some(map[]) && ExtraOf(v).Keys !! v.typ.fields.Keys
  }

  ghost predicate FieldReturns(reg: Registry, v: Value, f: string)
    requires v.StructVal? && f in v.fields && f in v.typ.fields
    decreases v, 0
  {
    var w, kind := v.fields[f], v.typ.fields[f].kind;
    && ((forall k :: !Respells(v, f, k)) ==> if Emitted(v, f) then Returns(reg, w) else w == Zero(kind))
    && forall k :: Respells(v, f, k) ==>
         var x := ExtraOf(v)[k];
         if !Emitted(v, f) then SaysNothing(kind, w, x)
         else if reg.late(Entries(Encode(v)), k, f) then SaysItAgain(reg, kind, w, x)
         else Readable(reg.types, kind, x) && GivesWay(w, x) && Returns(reg, w)
  }

  /** The empty w is not written, and x alone is read as w again. */
  predicate SaysNothing(k: Kind, w: Value, x: Json) { Vacant(k, x) && (KeepsOnNull(k) || (x.Null? <==> w == Zero(k))) }

  /** x is read before w: a map keeps every key of x that w does not have. */
  predicate GivesWay(w: Value, x: Json) {
    && (w.AnyMap? && x.Obj? ==> x.members.Keys <= w.m.Keys)
    && (w.TextMap? && x.Obj? ==> x.members.Keys <= w.t.Keys)
  }

  /** x is read after w and changes nothing. */
  ghost predicate SaysItAgain(reg: Registry, k: Kind, w: Value, x: Json) {
    match k
    case KText => x.Null? || x == Encode(w)
    case KFlag => x.Null? || x == Encode(w)
    case KInt(_, _) => x.Null? || x == Encode(w)
    case KAnyMap => if x.Null? then w.Nil? else x.Obj? && w.AnyMap? && Within(x.members, w.m)
    case KTextMap => if x.Null? then w.Nil? else IsTextObject(x) && w.TextMap? && Within(Blanked(x.members), Entries(Encode(w)))
    case _ => DecodeKind(reg, k, x) == Some(w)
  }

  // ----- one field -----

  /** Reading x, then y into a new field. */
  ghost function ReadBoth(reg: Registry, k: Kind, x: Json, y: Json): Option<Value> {
    var r := DecodeKind(reg, k, x);
    if r.Some? then ReadInto(reg, k, r.value, y) else None
  }

  lemma OpenReadsAlike(reg: Registry, s: Struct, was: Value, j: Json)
    requires s.open
    ensures ReadStruct(reg, s, was, j) == DecodeStruct(reg, s, j)
  {
    DecodeIsRead(reg, s, j);
    hide DecodeStruct, ReadMembers;
    if j.Obj? {
      forall f | f in s.fields ensures ReadField(reg, s, was, j.members, f) == ReadField(reg, s, ZeroStruct(s), j.members, f) {
      }
      hide ReadField, Start, Rest, ZeroStruct;
      SameFields(reg, s, was, ZeroStruct(s), j);
    }
  }

  lemma SameFields(reg: Registry, s: Struct, was: Value, other: Value, j: Json)
    requires j.Obj? && forall f :: f in s.fields ==> ReadField(reg, s, was, j.members, f) == ReadField(reg, s, other, j.members, f)
    ensures ReadStruct(reg, s, was, j) == ReadStruct(reg, s, other, j)
  {
    hide ReadField;
    var r, q := ReadStruct(reg, s, was, j), ReadStruct(reg, s, other, j);
    if r.Some? {
      assert r.value.fields == q.value.fields;
    }
  }

  /** A kind that keeps nothing of what was there. */
  lemma ReadsOver(reg: Registry, k: Kind, was: Value, j: Json)
    requires !FillsStruct(reg, k) && !k.KAnyMap? && !k.KTextMap? && (KeepsOnNull(k) ==> !j.Null?)
    ensures ReadInto(reg, k, was, j) == DecodeKind(reg, k, j)
  {
    hide ReadStruct, DecodeStruct;
    match k
    case KInline(s) => OpenReadsAlike(reg, s, was, j); OpenReadsAlike(reg, s, Zero(k), j);
    case KPointer(t) =>
      OpenReadsAlike(reg, reg.types(t), if was.Ptr? then was.target else ZeroStruct(reg.types(t)), j);
      OpenReadsAlike(reg, reg.types(t), ZeroStruct(reg.types(t)), j);
    case _ =>
  }

  lemma NotWritten(reg: Registry, k: Kind, w: Value, x: Json)
    requires HasType(reg, k, w) && Empty(w)
    ensures DecodeKind(reg, k, x) == Some(w) <==> SaysNothing(k, w, x)
  {
    if k.KInline? { TypedIsStruct(reg, k, w); }
    hide ReadStruct, DecodeStruct;
    if k.KTextMap? && x.Obj? { assert Texts(x.members).Keys == x.members.Keys; }
  }

  lemma SameMap<V>(m: map<string, V>, n: map<string, V>)
    ensures map[] + m == m
    ensures m + n == n <==> m.Keys <= n.Keys
    ensures n + m == n <==> forall k :: k in m ==> k in n && n[k] == m[k]
  {
    if m + n == n {
      forall k | k in m ensures k in n { assert k in m + n; }
    }
    if n + m == n {
      forall k | k in m ensures k in n && n[k] == m[k] { assert k in n + m && (n + m)[k] == m[k]; }
    }
  }

  /** A map field, written, with x read before or after it. */
  lemma MapReturns(reg: Registry, k: Kind, w: Value, x: Json)
    requires (k.KAnyMap? || k.KTextMap?) && HasType(reg, k, w)
    ensures DecodeKind(reg, k, Encode(w)) == Some(w)
    ensures ReadBoth(reg, k, x, Encode(w)) == Some(w) <==> Readable(reg.types, k, x) && GivesWay(w, x)
    ensures ReadBoth(reg, k, Encode(w), x) == Some(w) <==> SaysItAgain(reg, k, w, x)
  {
    if w.AnyMap? {
      SameMap(if x.Obj? then x.members else map[], w.m);
      SameMap(w.m, w.m);
    } else if w.TextMap? {
      assert Texts(Encode(w).members) == w.t;
      SameMap(w.t, w.t);
      if IsTextObject(x) {
        SameMap(Texts(x.members), w.t);
        TextsWithin(x.members, w.t);
      }
    }
  }

  lemma TextsWithin(m: map<string, Json>, t: map<string, string>)
    requires forall n :: n in m ==> m[n].Str? || m[n].Null?
    ensures (forall n :: n in Texts(m) ==> n in t && t[n] == Texts(m)[n]) <==> Within(Blanked(m), Entries(Encode(TextMap(t))))
  {
    var e := Entries(Encode(TextMap(t)));
    assert forall n :: n in m ==> (n in t && t[n] == Texts(m)[n] <==> n in e && e[n] == Blanked(m)[n]);
    assert Texts(m).Keys == m.Keys == Blanked(m).Keys;
  }

  lemma ReadBefore(reg: Registry, k: Kind, w: Value, x: Json)
    requires HasType(reg, k, w) && !FillsStruct(reg, k)
    ensures ReadBoth(reg, k, x, Encode(w)) == Some(w) <==>
            Readable(reg.types, k, x) && GivesWay(w, x) && DecodeKind(reg, k, Encode(w)) == Some(w)
  {
    if k.KAnyMap? || k.KTextMap? {
      MapReturns(reg, k, w, x);
    } else {
      ReadsIfReadable(reg, k, Zero(k), x);
      ScalarsEncode(reg, k, w);
      var r := DecodeKind(reg, k, x);
      if r.Some? { ReadsOver(reg, k, r.value, Encode(w)); }
      assert !w.AnyMap? && !w.TextMap?;
    }
    hide ReadInto, DecodeKind, Encode, Readable;
  }

  lemma ReadAfter(reg: Registry, k: Kind, w: Value, x: Json)
    requires HasType(reg, k, w) && !FillsStruct(reg, k)
    ensures ReadBoth(reg, k, Encode(w), x) == Some(w) <==> SaysItAgain(reg, k, w, x)
  {
    if k.KAnyMap? || k.KTextMap? {
      MapReturns(reg, k, w, x);
    } else if k.KText? || k.KFlag? || k.KInt? {
    } else {
      var r := DecodeKind(reg, k, Encode(w));
      if r.Some? { ReadsOver(reg, k, r.value, x); }
      if DecodeKind(reg, k, x) == Some(w) { Redecodes(reg, k, x); }
      hide ReadInto, DecodeKind, Encode;
    }
  }

  /** What was decoded can be decoded again. */
  lemma Redecodes(reg: Registry, k: Kind, x: Json)
    requires DecodeKind(reg, k, x).Some?
    ensures DecodeKind(reg, k, Encode(DecodeKind(reg, k, x).value)).Some?
  {
    hide ReadInto, PruneKind, Readable, Encode;
    var z := Zero(k);
    ZeroHasType(reg, k);
    EncodeZero(k);
    EncodeRead(reg, k, z, x);
    ReadsIfReadable(reg, k, z, x);
    ZeroReadable(reg.types, k);
    PrunedKindReadable(reg, k, ZeroJson(k), x);
    ReadsIfReadable(reg, k, z, PruneKind(reg, k, ZeroJson(k), x));
  }

  // ----- all fields -----

  /** The members of an encoded struct that are read into f. */
  lemma WrittenFor(v: Value, f: string)
    requires v.StructVal? && f in v.fields && f in v.typ.fields && v.fields.Keys == v.typ.fields.Keys && ExtraOf(v).Keys !! v.typ.fields.Keys
    ensures Encode(v).Obj?
    ensures var o := Encode(v).members;
            && (f in o <==> Emitted(v, f)) && (f in o ==> o[f] == Encode(v.fields[f]))
            && (forall k :: k in o && IsVariant(v.typ.fields.Keys, k, f) <==> Respells(v, f, k))
            && (forall k :: Respells(v, f, k) ==> o[k] == ExtraOf(v)[k])
  {
    EncodedMember(v, f);
    var o := Encode(v).members;
    forall k | IsVariant(v.typ.fields.Keys, k, f) ensures k in o <==> k in ExtraOf(v) ensures k in o ==> o[k] == ExtraOf(v)[k] {
      EncodedMember(v, k);
    }
    hide Encode, IsVariant;
  }

  lemma ReadsOne(reg: Registry, kind: Kind, o: map<string, Json>, k: string)
    requires k in o
    ensures ReadMembers(reg, kind, Zero(kind), o, [k]) == DecodeKind(reg, kind, o[k])
  {
    hide ReadInto;
    assert [k][1..] == [];
    var r := DecodeKind(reg, kind, o[k]);
    assert r.Some? ==> ReadMembers(reg, kind, r.value, o, []) == r;
  }

  lemma ReadsTwo(reg: Registry, kind: Kind, o: map<string, Json>, k: string, l: string)
    requires k in o && l in o
    ensures ReadMembers(reg, kind, Zero(kind), o, [k, l]) == ReadBoth(reg, kind, o[k], o[l])
  {
    hide ReadInto;
    assert [k, l][1..] == [l] && [l][1..] == [];
    var r := ReadBoth(reg, kind, o[k], o[l]);
    assert r.Some? ==> ReadMembers(reg, kind, r.value, o, []) == r;
  }

  /** How a field with one case variant k in Extra is read. */
  lemma RespelledRead(reg: Registry, s: Struct, v: Value, f: string, k: string)
    requires HasStructType(reg, s, v) && f in s.fields && FewVariantsOf(reg, v, f) && ExtraOf(v).Keys !! s.fields.Keys && Respells(v, f, k)
    ensures Encode(v).Obj?
    ensures var o, kind, e, x := Encode(v).members, s.fields[f].kind, Encode(v.fields[f]), ExtraOf(v)[k];
            ReadField(reg, s, ZeroStruct(s), o, f) ==
            if !Emitted(v, f) then DecodeKind(reg, kind, x) else if reg.late(o, k, f) then ReadBoth(reg, kind, e, x) else ReadBoth(reg, kind, x, e)
  {
    WrittenFor(v, f);
    var o, kind := Encode(v).members, s.fields[f].kind;
    ZeroStart(s, f);
    hide ReadMembers, DecodeKind, Encode, HasType, Spellings, Empty, Zero, ReadBoth, IsVariant, Emitted;
    TwoSpellings(reg, s.fields.Keys, o, f, k);
    if !Emitted(v, f) {
      ReadsOne(reg, kind, o, k);
    } else if reg.late(o, k, f) {
      ReadsTwo(reg, kind, o, f, k);
    } else {
      ReadsTwo(reg, kind, o, k, f);
    }
    hide ExtraOf, Respells, FillsStruct, FieldOf, Start;
  }

  lemma {:induction false} RespelledReturns(reg: Registry, s: Struct, v: Value, f: string, k: string)
    requires HasStructType(reg, s, v) && f in s.fields && FewVariantsOf(reg, v, f) && ExtraOf(v).Keys !! s.fields.Keys && Respells(v, f, k)
    requires DecodeKind(reg, s.fields[f].kind, Encode(v.fields[f])) == Some(v.fields[f]) <==> Returns(reg, v.fields[f])
    ensures Encode(v).Obj?
    ensures ReadField(reg, s, ZeroStruct(s), Encode(v).members, f) == Some(v.fields[f]) <==> FieldReturns(reg, v, f)
  {
    RespelledRead(reg, s, v, f, k);
    var o, kind, w, x := Encode(v).members, s.fields[f].kind, v.fields[f], ExtraOf(v)[k];
    assert HasType(reg, kind, w);
    if !Emitted(v, f) {
      NotWritten(reg, kind, w, x);
    } else if reg.late(o, k, f) {
      ReadAfter(reg, kind, w, x);
    } else {
      ReadBefore(reg, kind, w, x);
    }
    hide ReadField, DecodeKind, Encode, Returns, SaysNothing, SaysItAgain, GivesWay, Readable, HasType, Empty, Zero, ReadBoth, IsVariant,
      HasStructType, ExtraOf, FillsStruct;
  }

  lemma ZeroStart(s: Struct, f: string)
    requires f in s.fields
    ensures FieldOf(s, Start(s, ZeroStruct(s)), f) == Zero(s.fields[f].kind)
  {
  }

  /** A field without a case variant in Extra. */
  lemma {:induction false} SoleReturns(reg: Registry, s: Struct, v: Value, f: string)
    requires HasStructType(reg, s, v) && ExtraOf(v).Keys !! s.fields.Keys && f in s.fields && forall k :: !Respells(v, f, k)
    requires DecodeKind(reg, s.fields[f].kind, Encode(v.fields[f])) == Some(v.fields[f]) <==> Returns(reg, v.fields[f])
    ensures Encode(v).Obj?
    ensures ReadField(reg, s, ZeroStruct(s), Encode(v).members, f) == Some(v.fields[f]) <==> FieldReturns(reg, v, f)
  {
    WrittenFor(v, f);
    SoleSpelling(reg, s, ZeroStruct(s), Encode(v).members, f);
    ZeroStart(s, f);
    hide ReadInto, ReadField, Encode, Returns, HasType, Spellings, Empty, Zero, IsVariant;
  }

  lemma {:induction false} KindReturns(reg: Registry, k: Kind, v: Value)
    requires HasType(reg, k, v) && FewVariants(reg, v)
    ensures DecodeKind(reg, k, Encode(v)) == Some(v) <==> Returns(reg, v)
    decreases v, 1
  {
    hide ReadStruct, DecodeStruct, HasStructType;
    if v.Nil? || v == Any(Null) {
      if k.KInline? { TypedIsStruct(reg, k, v); }
    } else {
      match k
      case KTextMap => MapReturns(reg, k, v, Null);
      case KAnyMap => MapReturns(reg, k, v, Null);
      case KInline(s) => StructReturns(reg, s, v); DecodeIsRead(reg, s, Encode(v)); TypedIsStruct(reg, k, v); EncodedMember(v, "");
      case KPointer(t) =>
        StructReturns(reg, reg.types(t), v.target);
        DecodeIsRead(reg, reg.types(t), Encode(v));
        TypedIsStruct(reg, k, v);
        EncodedMember(v.target, "");
      case KSlice(t) =>
        forall i | 0 <= i < |v.vs| ensures DecodeStruct(reg, reg.types(t), Encode(v.vs[i])) == Some(v.vs[i]) <==> Returns(reg, v.vs[i]) {
          StructReturns(reg, reg.types(t), v.vs[i]);
        }
        SliceReturns(reg, t, v);
      case _ =>
    }
  }

  lemma SliceReturns(reg: Registry, t: TypeName, v: Value)
    requires v.StructSlice?
    requires forall i :: 0 <= i < |v.vs| ==> (DecodeStruct(reg, reg.types(t), Encode(v.vs[i])) == Some(v.vs[i]) <==> Returns(reg, v.vs[i]))
    ensures DecodeKind(reg, KSlice(t), Encode(v)) == Some(v) <==> Returns(reg, v)
  {
    hide DecodeStruct;
    var d := DecodeKind(reg, KSlice(t), Encode(v));
    if d == Some(v) {
      forall i | 0 <= i < |v.vs| ensures Returns(reg, v.vs[i]) { assert d.value.vs[i] == v.vs[i]; }
    }
    if Returns(reg, v) {
      assert d.value.vs == v.vs;
    }
  }

  /** A typed value comes back from the wire unchanged exactly under the condition above. */
  lemma {:induction false} StructReturns(reg: Registry, s: Struct, v: Value)
    requires HasStructType(reg, s, v) && FewVariants(reg, v)
    ensures DecodeStruct(reg, s, Encode(v)) == Some(v) <==> Returns(reg, v)
    decreases v, 0
  {
    EncodedMember(v, "");
    if ExtraOf(v).Keys !! s.fields.Keys {
      forall f | f in s.fields
        ensures ReadField(reg, s, ZeroStruct(s), Encode(v).members, f) == Some(v.fields[f]) <==> FieldReturns(reg, v, f)
      {
        KindReturns(reg, s.fields[f].kind, v.fields[f]);
        if k :| Respells(v, f, k) { RespelledReturns(reg, s, v, f, k); } else { SoleReturns(reg, s, v, f); }
      }
      RoundTrip.RestOfEncoded(reg, s, v);
    }
    MembersReturn(reg, s, v);
  }

  lemma MembersReturn(reg: Registry, s: Struct, v: Value)
    requires HasStructType(reg, s, v) && Encode(v).Obj?
    requires ExtraOf(v).Keys !! s.fields.Keys ==>
               && (if s.open then Rest(Encode(v).members, s.fields.Keys) else None) == (if v.extra == Some(map[]) then None else v.extra)
               && forall f :: f in s.fields ==> (ReadField(reg, s, ZeroStruct(s), Encode(v).members, f) == Some(v.fields[f]) <==> FieldReturns(reg, v, f))
    ensures DecodeStruct(reg, s, Encode(v)) == Some(v) <==> Returns(reg, v)
  {
    hide Encode, ReadField, HasType, FieldReturns;
    var o, d := Encode(v).members, DecodeStruct(reg, s, Encode(v));
    assert d == ReadStruct(reg, s, ZeroStruct(s), Encode(v));
    if d == Some(v) {
      assert v.extra == if s.open then Rest(o, s.fields.Keys) else None;
      forall f | f in s.fields ensures ReadField(reg, s, ZeroStruct(s), o, f) == Some(v.fields[f]) {
        assert ReadField(reg, s, ZeroStruct(s), o, f).Some?;
      }
    }
    if Returns(reg, v) {
      assert d.Some? && d.value.fields == v.fields;
    }
  }

  lemma {:induction false} NoVariantsIsFew(reg: Registry, v: Value)
    requires RoundTrip.NoVariantExtra(v)
    ensures FewVariants(reg, v)
  {
    match v
    case Ptr(t) => NoVariantsIsFew(reg, t);
    case StructSlice(vs) => forall i | 0 <= i < |vs| ensures FewVariants(reg, vs[i]) { NoVariantsIsFew(reg, vs[i]); }
    case StructVal(s, fields, extra) => forall f | f in fields ensures FewVariants(reg, fields[f]) { NoVariantsIsFew(reg, fields[f]); }
    case _ =>
  }

  /** Without case variants the condition is the canonical form. */
  lemma ReturnsIffCanonical(reg: Registry, s: Struct, v: Value)
    requires HasStructType(reg, s, v) && RoundTrip.NoVariantExtra(v)
    ensures FewVariants(reg, v) && (Returns(reg, v) <==> RoundTrip.Disjoint(v) && RoundTrip.Canonical(v))
  {
    hide *;
    NoVariantsIsFew(reg, v);
    StructReturns(reg, s, v);
    RoundTrip.RoundTripIffCanonical(reg, s, v);
  }

  /** What the code does with a value of the wire model: marshalWithExtra writes an object with an Extra with its
      keys sorted, so the text leaves no order open. */
  lemma ModelReturns(t: TypeName, v: Value)
    requires var reg := Registry(RiftModel.Model, SORTED); HasStructType(reg, RiftModel.Model(t), v) && FewVariants(reg, v)
    ensures var reg := Registry(RiftModel.Model, SORTED); DecodeStruct(reg, RiftModel.Model(t), Encode(v)) == Some(v) <==> Returns(reg, v)
  {
    hide RiftModel.Model, RiftModel.Decls, DecodeStruct, Encode, Returns, FewVariants;
    StructReturns(Registry(RiftModel.Model, SORTED), RiftModel.Model(t), v);
  }
}
