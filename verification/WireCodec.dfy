/** The two helpers of rift/json.go and an UnmarshalJSON method, as the loops and assignments they
    are, proved against Codec; and what the codec theorems say of the real model. */
module WireCodec {
  import opened Json
  import opened Schema
  import opened Codec
  import opened Prune
  import opened RoundTrip
  import RiftModel

  /** The merge of marshalWithExtra, given the object the shadow encoded to. */
  method MarshalWithExtra(emitted: map<string, Json>, extra: Option<map<string, Json>>) returns (merged: map<string, Json>)
    ensures merged == MergeExtra(emitted, if extra.Some? then extra.value else map[])
  {
    if extra.None? || extra.value == map[] { return emitted; }
    merged := emitted;
    var todo := extra.value.Keys;
    while todo != {}
      invariant todo <= extra.value.Keys
      invariant merged.Keys == emitted.Keys + (extra.value.Keys - todo)
      invariant forall k :: k in merged ==> merged[k] == if k in emitted then emitted[k] else extra.value[k]
      decreases todo
    {
      var k :| k in todo;
      if k !in merged {
        merged := merged[k := extra.value[k]];
      }
      todo := todo - {k};
    }
  }

  /** The locals of an UnmarshalJSON method: the shadow struct and its Extra. */
  class Shadow {
    var fields: map<string, Value>
    var extra: Option<map<string, Json>>

    constructor (decls: seq<StructField>)
      ensures fields == ZeroStruct(StructOf(decls, true)).fields && extra == None
    {
      fields, extra := ZeroStruct(StructOf(decls, true)).fields, None;
    }
  }

  /** What encoding/json leaves in a shadow's declared fields. */
  ghost function FirstPass(reg: Registry, s: Struct, data: Json): Option<map<string, Value>> {
    var d := DecodeStruct(reg, s, data);
    if d.Some? then DecodedIsStruct(reg, s, data); Some(d.value.fields) else None
  }

  /** unmarshalWithExtra; first is the outcome of json.Unmarshal(data, shadow). */
  method UnmarshalWithExtra(ghost reg: Registry, decls: seq<StructField>, data: Json, first: Option<map<string, Value>>, shadow: Shadow)
    returns (ok: bool)
    requires first == FirstPass(reg, StructOf(decls, true), data)
    modifies shadow
    ensures ok == DecodeStruct(reg, StructOf(decls, true), data).Some?
    ensures ok ==> DecodeStruct(reg, StructOf(decls, true), data) == Some(StructVal(StructOf(decls, true), shadow.fields, shadow.extra))
    ensures !ok ==> shadow.extra == old(shadow.extra)
  {
    if first.None? { return false; }
    shadow.fields := first.value;
    var all := if data.Obj? then data.members else map[];
    if all == map[] {
      shadow.extra := None;
      return true;
    }
    var known := KnownKeys(decls);
    var rest: map<string, Json> := map[];
    var todo := all.Keys;
    while todo != {}
      invariant todo <= all.Keys
      invariant rest.Keys == (all.Keys - todo) - known
      invariant forall k :: k in rest ==> rest[k] == all[k]
      decreases todo
    {
      var k :| k in todo;
      if k !in known {
        rest := rest[k := all[k]];
      }
      todo := todo - {k};
    }
    assert rest == map k | k in all && k !in known :: all[k];
    shadow.extra := if rest == map[] then None else Some(rest);
    return true;
  }

  /** A value of an open model type that UnmarshalJSON is called on. */
  class Receiver {
    var value: Value

    constructor (v: Value)
      ensures value == v
    {
      value := v;
    }

    /** Overwrites the receiver with the decoded value, or leaves it alone on error. */
    method UnmarshalJSON(ghost reg: Registry, decls: seq<StructField>, data: Json, first: Option<map<string, Value>>) returns (ok: bool)
      requires first == FirstPass(reg, StructOf(decls, true), data)
      modifies this
      ensures var d := DecodeStruct(reg, StructOf(decls, true), data);
              ok == d.Some? && value == if d.Some? then d.value else old(value)
    {
      var s := new Shadow(decls);
      ok := UnmarshalWithExtra(reg, decls, data, first, s);
      if ok {
        value := StructVal(StructOf(decls, true), s.fields, s.extra);
      }
    }
  }

  // ----- the model's types -----

  function ModelRegistry(late: Order): Registry { Registry(RiftModel.Model, late) }

  /** Every model type, whatever the order of a document's members: re-encoding a decoded document prunes
      it. Without case variants it is idempotent and decodes to the canonical form of the same value. */
  lemma ModelRoundTrip(t: TypeName, late: Order, d: Json)
    requires DecodeStruct(ModelRegistry(late), RiftModel.Model(t), d).Some?
    ensures var reg, s := ModelRegistry(late), RiftModel.Model(t);
            var v := DecodeStruct(reg, s, d).value;
            && Encode(v) == Pruned(reg, s, d)
            && (NoVariants(reg, s, d) ==>
                  && DecodeStruct(reg, s, Encode(v)) == Some(Tidy(v))
                  && Encode(Tidy(v)) == Encode(v)
                  && Canonical(Tidy(v)))
  {
    hide RiftModel.Model, RiftModel.Decls, DecodeStruct, Pruned, NoVariants;
    var reg, s := ModelRegistry(late), RiftModel.Model(t);
    EncodeDecode(reg, s, d);
    if NoVariants(reg, s, d) {
      Idempotent(reg, s, d);
      EncodeTidy(DecodeStruct(reg, s, d).value);
    }
  }

  /** Mandatory keys are on the wire whatever the document said. */
  lemma MandatoryAlwaysPresent(t: TypeName, late: Order, d: Json, k: string)
    requires DecodeStruct(ModelRegistry(late), RiftModel.Model(t), d).Some? && k in RiftModel.Mandatory(t)
    ensures var e := Encode(DecodeStruct(ModelRegistry(late), RiftModel.Model(t), d).value);
            e.Obj? && k in e.members
  {
    hide RiftModel.Model, RiftModel.Decls, RiftModel.Mandatory, DecodeStruct;
    RiftModel.MandatoryKeys(t, k);
    EncodeDecode(ModelRegistry(late), RiftModel.Model(t), d);
    EncodedMember(DecodeStruct(ModelRegistry(late), RiftModel.Model(t), d).value, k);
  }

  // ----- case variants -----

  /** A document that spells an undeclared-looking key which folds to the absent declared key f:
      re-encoding adds f, unless its value is one omitempty drops, and (in an open struct) keeps
      the variant too. */
  lemma VariantIsDuplicated(reg: Registry, s: Struct, o: map<string, Json>, k: string, f: string)
    requires DecodeStruct(reg, s, Obj(o)).Some? && s.open
    requires f in s.fields && f !in o && k in o && IsVariant(s.fields.Keys, k, f)
    requires forall n :: n in o && IsVariant(s.fields.Keys, n, f) ==> n == k
    ensures var e := Encode(DecodeStruct(reg, s, Obj(o)).value);
            && e.Obj? && k in e.members && e.members[k] == o[k]
            && (f in e.members <==> !(s.fields[f].omitEmpty && Vacant(s.fields[f].kind, o[k])))
            && (f in e.members ==> e.members[f] == PrunedKind(reg, s.fields[f].kind, o[k]))
  {
    hide DecodeStruct, ReadStruct, Encode;
    EncodeDecode(reg, s, Obj(o));
    DecodesIffReadable(reg, s, ZeroStruct(s), Obj(o));
    assert DecodeStruct(reg, s, Obj(o)) == ReadStruct(reg, s, ZeroStruct(s), Obj(o)) by { DecodeIsRead(reg, s, Obj(o)); }
    assert ReadableField(reg.types, s, o, f);
    HeldZero(s, f);
    OneVariantEntry(reg, s, ZeroObject(s), o, f, k);
    VacantPruned(reg, s.fields[f].kind, o[k]);
    hide PruneStruct, PruneKind, Vacant, Entry;
    PrunedMember(reg, s, ZeroObject(s), o, k);
    PrunedMember(reg, s, ZeroObject(s), o, f);
  }
}
