/** Imposters that spell one setting twice, and what a second pass makes of them. */
module CaseVariants {
  import opened Json
  import opened Schema
  import opened Codec
  import opened Prune
  import opened Idempotence
  import RiftModel
  import Strings

  predicate IsScalar(k: Kind) { k.KText? || k.KFlag? || k.KInt? }

  /** k is an unknown key that is read into the optional scalar field f of the open struct and into no other. */
  predicate SpellsOnly(s: Struct, f: string, k: string) {
    && s.open && f in s.fields && s.fields[f].omitEmpty && IsScalar(s.fields[f].kind) && IsVariant(s.fields.Keys, k, f)
    && forall g :: g in s.fields && g != f ==> !IsVariant(s.fields.Keys, k, g)
  }

  function Pair(f: string, own: Json, k: string, other: Json): map<string, Json> { map[f := own, k := other] }

  /** What a scalar comes to when one value is read and then the other. */
  function Later(k: Kind, first: Json, second: Json): Json {
    if !second.Null? then second else if !first.Null? then first else ZeroJson(k)
  }

  /** What the field comes to. */
  function Comes(late: Order, k: Kind, o: map<string, Json>, f: string, n: string): Json
    requires f in o && n in o
  {
    if late(o, n, f) then Later(k, o[f], o[n]) else Later(k, o[n], o[f])
  }

  /** The second pass repeats the first: the field was written and the variant is read before it, is null or
      says the same, or it was dropped and the variant is empty too. */
  predicate Repeats(again: Order, k: Kind, e: Json, p: map<string, Json>, f: string, n: string, other: Json) {
    if Vacant(k, e) then Vacant(k, other) else again(p, n, f) ==> other.Null? || other == e
  }

  lemma OtherFieldsUnread(reg: Registry, again: Registry, s: Struct, f: string, own: Json, k: string, other: Json, g: string)
    requires SpellsOnly(s, f, k) && g in s.fields && g != f
    ensures var o := Pair(f, own, k, other);
            ReadableField(reg.types, s, o, g) && FewSpellingsOf(reg, s, o, g) && StableField(reg, again, s, o, g)
  {
    var o := Pair(f, own, k, other);
    assert forall n :: n in o ==> n != g && !IsVariant(s.fields.Keys, n, g);
    hide SpellsOnly, IsVariant, Pair;
    LastReadIs(reg, s, o, g);
    hide Survives, LastRead, Spellings;
  }

  lemma ScalarStable(reg: Registry, again: Registry, k: Kind, j: Json)
    requires IsScalar(k)
    ensures StableAfterItself(reg, again, k, j) && FewSpellingsIn(reg, k, j) && !FillsStruct(reg, k)
  {
  }

  lemma PairEntry(reg: Registry, s: Struct, f: string, own: Json, k: string, other: Json)
    requires SpellsOnly(s, f, k)
    ensures var o := Pair(f, own, k, other);
            Entry(reg, s, ZeroObject(s), o, f) == Comes(reg.late, s.fields[f].kind, o, f, k)
  {
    OneVariantEntry(reg, s, ZeroObject(s), Pair(f, own, k, other), f, k);
    HeldZero(s, f);
    hide Entry, Spellings, Held, Fold;
  }

  lemma ScalarAddsNothing(again: Registry, k: Kind, e: Json, x: Json)
    requires IsScalar(k)
    ensures AddsNothing(again, k, e, x) <==> x.Null? || x == e
  {
  }

  lemma PairReadable(reg: Registry, s: Struct, f: string, own: Json, k: string, other: Json)
    requires SpellsOnly(s, f, k) && Readable(reg.types, s.fields[f].kind, own) && Readable(reg.types, s.fields[f].kind, other)
    ensures var o := Pair(f, own, k, other);
            && ReadableField(reg.types, s, o, f) && FewSpellingsOf(reg, s, o, f) && Respelled(s, o, f)
            && forall n :: n in o && IsVariant(s.fields.Keys, n, f) <==> n == k
  {
    var o, kind := Pair(f, own, k, other), s.fields[f].kind;
    assert forall n :: n in o && IsVariant(s.fields.Keys, n, f) <==> n == k;
    forall j ensures FewSpellingsIn(reg, kind, j) && !FillsStruct(reg, kind) { ScalarStable(reg, reg, kind, j); }
    hide IsVariant, Readable, FewSpellingsIn, FillsStruct;
  }

  lemma PairField(reg: Registry, again: Registry, s: Struct, f: string, own: Json, k: string, other: Json)
    requires SpellsOnly(s, f, k) && Readable(reg.types, s.fields[f].kind, own) && Readable(reg.types, s.fields[f].kind, other)
    ensures var o, kind := Pair(f, own, k, other), s.fields[f].kind;
            StableField(reg, again, s, o, f) <==>
            Repeats(again.late, kind, Comes(reg.late, kind, o, f, k), Entries(Pruned(reg, s, Obj(o))), f, k, other)
  {
    var o, kind := Pair(f, own, k, other), s.fields[f].kind;
    PairReadable(reg, s, f, own, k, other);
    PairEntry(reg, s, f, own, k, other);
    var e, last := Comes(reg.late, kind, o, f, k), LastRead(reg, s, o, f);
    assert o[k] == other && s.open && s.fields[f].omitEmpty;
    ScalarStable(reg, again, kind, last);
    ScalarAddsNothing(again, kind, e, other);
    hide SpellsOnly, Pair, Entry, Spellings, Fold, LastRead, Pruned, Vacant, Readable, Comes, IsVariant, StableAfterItself, FewSpellingsIn,
      FillsStruct, AddsNothing, StableIn, Respelled, Entries, FewSpellingsOf, ReadableField;
  }

  /** A scalar setting spelled twice, in any two orders. */
  lemma PairStable(reg: Registry, again: Registry, s: Struct, f: string, own: Json, k: string, other: Json)
    requires SpellsOnly(s, f, k) && Readable(reg.types, s.fields[f].kind, own) && Readable(reg.types, s.fields[f].kind, other)
    ensures var o, kind := Pair(f, own, k, other), s.fields[f].kind;
            && ReadableStruct(reg.types, s, Obj(o)) && FewSpellings(reg, s, Obj(o))
            && (Stable(reg, again, s, Obj(o)) <==>
                  Repeats(again.late, kind, Comes(reg.late, kind, o, f, k), Entries(Pruned(reg, s, Obj(o))), f, k, other))
  {
    PairReadable(reg, s, f, own, k, other);
    PairField(reg, again, s, f, own, k, other);
    var o := Pair(f, own, k, other);
    forall g | g in s.fields && g != f
      ensures ReadableField(reg.types, s, o, g) && FewSpellingsOf(reg, s, o, g) && StableField(reg, again, s, o, g)
    {
      OtherFieldsUnread(reg, again, s, f, own, k, other, g);
    }
    hide StableField, ReadableField, FewSpellingsOf, Repeats, Comes, Pair, IsVariant, Pruned;
  }

  // ----- imposters -----

  /** Whether a second pass over what a first pass made of the imposter d writes the same again. */
  ghost predicate OnePassEnough(late: Order, d: Json)
    requires DecodeStruct(Registry(RiftModel.Model, late), RiftModel.Model(Imposter), d).Some?
  {
    var reg, again, s := Registry(RiftModel.Model, late), Registry(RiftModel.Model, SORTED), RiftModel.Model(Imposter);
    var e := Encode(DecodeStruct(reg, s, d).value);
    DecodeStruct(again, s, e).Some? && Encode(DecodeStruct(again, s, e).value) == e
  }

  lemma ImposterPair(late: Order, f: string, own: Json, k: string, other: Json)
    requires SpellsOnly(RiftModel.Model(Imposter), f, k)
    requires Readable(RiftModel.Model, RiftModel.Model(Imposter).fields[f].kind, own)
    requires Readable(RiftModel.Model, RiftModel.Model(Imposter).fields[f].kind, other)
    ensures var reg, s, o := Registry(RiftModel.Model, late), RiftModel.Model(Imposter), Pair(f, own, k, other);
            && DecodeStruct(reg, s, Obj(o)).Some?
            && (OnePassEnough(late, Obj(o)) <==>
                  Repeats(SORTED, s.fields[f].kind, Comes(late, s.fields[f].kind, o, f, k), Entries(Pruned(reg, s, Obj(o))), f, k, other))
  {
    hide RiftModel.Model, RiftModel.Decls, DecodeStruct, Encode, Fold, Stable, FewSpellings, Pair, ReadableStruct, SpellsOnly, Repeats, Comes, Pruned;
    var reg, again, s := Registry(RiftModel.Model, late), Registry(RiftModel.Model, SORTED), RiftModel.Model(Imposter);
    var d := Obj(Pair(f, own, k, other));
    PairStable(reg, again, s, f, own, k, other);
    DecodeIsRead(reg, s, d);
    DecodesIffReadable(reg, s, ZeroStruct(s), d);
    IdempotentIffStable(reg, again, s, d);
  }

  lemma {:induction false} BelowAfter(prefix: string, a: string, b: string)
    ensures Strings.Below(prefix + a, prefix + b) <==> Strings.Below(a, b)
  {
    if prefix == [] {
      assert prefix + a == a && prefix + b == b;
    } else {
      assert (prefix + a)[1..] == prefix[1..] + a && (prefix + b)[1..] == prefix[1..] + b;
      BelowAfter(prefix[1..], a, b);
    }
  }

  lemma PortSpelledAsPort()
    ensures var s := RiftModel.Model(Imposter);
            SpellsOnly(s, "port", "Port") && s.fields["port"] == Field(true, RiftModel.Port())
    ensures !Strings.Below("port", "Port")
  {
    hide FieldMap;
    var decls, s := RiftModel.IMPOSTER, RiftModel.Model(Imposter);
    Declared(decls, 0);
    assert Fold("Port") == "PORT" == Fold("port");
    forall g | g in s.fields
      ensures g != "Port" && (Fold(g) == Fold("Port") ==> g == "port") && (g == "port" ==> s.fields[g] == Field(true, RiftModel.Port()))
    {
      var i := FieldOrigin(decls, g);
      assert g == WireKey(decls[i]);
      if Fold(g) == Fold("Port") {
        assert |g| == 4 && FoldChar(g[0]) == 'P' && FoldChar(g[1]) == 'O';
      }
    }
    hide Fold;
  }

  /** Port 0 read after the unknown key "Port" is dropped on the wire, and then the kept "Port" is read as the
      port: a second pass changes the document. Read before it, or null, it makes no difference. */
  lemma TwoPortsIdempotent(late: Order, own: Json)
    requires own == Null || own == Num(0.0)
    ensures var o := Pair("port", own, "Port", Num(80.0));
            && DecodeStruct(Registry(RiftModel.Model, late), RiftModel.Model(Imposter), Obj(o)).Some?
            && (OnePassEnough(late, Obj(o)) <==> own == Null || late(o, "Port", "port"))
  {
    PortSpelledAsPort();
    hide RiftModel.Model, DecodeStruct, Pruned, OnePassEnough, SpellsOnly;
    assert Num(80.0).r.Floor == 80 && Num(0.0).r.Floor == 0;
    ImposterPair(late, "port", own, "Port", Num(80.0));
  }

  lemma ForwardFields(g: string)
    requires g in RiftModel.Model(Imposter).fields
    ensures g != "defaultforward" && (Fold(g) == Fold("defaultforward") ==> g == "defaultForward")
    ensures g == "defaultForward" ==> RiftModel.Model(Imposter).fields[g] == Field(true, KText)
  {
    hide FieldMap;
    var i := FieldOrigin(RiftModel.IMPOSTER, g);
    assert g == WireKey(RiftModel.IMPOSTER[i]);
    if Fold(g) == Fold("defaultforward") {
      assert |g| == 14 && FoldChar(g[0]) == 'D';
    }
  }

  lemma ForwardFolds()
    ensures Fold("defaultForward") == Fold("defaultforward")
  {
    assert Fold("defaultForward") == "DEFAULTFORWARD" == Fold("defaultforward");
  }

  lemma ForwardDeclared()
    ensures "defaultForward" in RiftModel.Model(Imposter).fields && RiftModel.Model(Imposter).open
  {
    hide FieldMap;
    Declared(RiftModel.IMPOSTER, 8);
  }

  lemma ForwardSpelledAsForward()
    ensures var s := RiftModel.Model(Imposter);
            SpellsOnly(s, "defaultForward", "defaultforward") && s.fields["defaultForward"] == Field(true, KText)
  {
    hide RiftModel.Model, Fold;
    var s := RiftModel.Model(Imposter);
    forall g | g in s.fields
      ensures g != "defaultforward" && (Fold(g) == Fold("defaultforward") ==> g == "defaultForward")
      ensures g == "defaultForward" ==> s.fields[g] == Field(true, KText)
    {
      ForwardFields(g);
    }
    ForwardFolds();
    ForwardDeclared();
  }

  lemma ForwardWrittenFirst()
    ensures Strings.Below("defaultForward", "defaultforward")
  {
    BelowAfter("default", "Forward", "forward");
    assert "default" + "Forward" == "defaultForward" && "default" + "forward" == "defaultforward";
  }

  /** Here nothing is dropped: "defaultForward" is written before "defaultforward", so the second pass ends
      with the variant's value. It is the same only if the first pass ended with it too. */
  lemma TwoForwardsIdempotent(late: Order, own: string, other: string)
    ensures var o := Pair("defaultForward", Str(own), "defaultforward", Str(other));
            && DecodeStruct(Registry(RiftModel.Model, late), RiftModel.Model(Imposter), Obj(o)).Some?
            && (OnePassEnough(late, Obj(o)) <==> own == other || late(o, "defaultforward", "defaultForward"))
  {
    ForwardSpelledAsForward();
    ForwardWrittenFirst();
    hide RiftModel.Model, DecodeStruct, Pruned, OnePassEnough, SpellsOnly, Strings.Below;
    ImposterPair(late, "defaultForward", Str(own), "defaultforward", Str(other));
  }
}
