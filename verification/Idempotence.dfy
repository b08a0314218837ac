/** Exactly when decoding and re-encoding a second time changes nothing. */
module Idempotence {
  import opened Json
  import opened Schema
  import opened Codec
  import opened Prune
  import RiftModel
  import Strings

  // ----- a re-encoded document decodes -----

  lemma {:induction false} ZeroReadable(types: TypeName -> Struct, k: Kind)
    ensures Readable(types, k, ZeroJson(k))
  {
    if k.KInline? { ZeroObjectReadable(types, k.struct); }
  }

  lemma {:induction false} ZeroObjectReadable(types: TypeName -> Struct, s: Struct)
    ensures ReadableStruct(types, s, ZeroObject(s))
  {
    var o := ZeroObject(s).members;
    forall f | f in s.fields ensures ReadableField(types, s, o, f) {
      ZeroReadable(types, s.fields[f].kind);
    }
  }

  lemma {:induction false} PrunedKindReadable(reg: Registry, k: Kind, was: Json, j: Json)
    requires Readable(reg.types, k, was) && Readable(reg.types, k, j)
    ensures Readable(reg.types, k, PruneKind(reg, k, was, j))
    decreases j, 5
  {
    ZeroReadable(reg.types, k);
    if !j.Null? {
      hide PruneStruct;
      match k
      case KInline(s) => PrunedReadable(reg, s, was, j);
      case KPointer(t) =>
        ZeroObjectReadable(reg.types, reg.types(t));
        PrunedReadable(reg, reg.types(t), if was.Obj? then was else ZeroObject(reg.types(t)), j);
      case KSlice(t) =>
        ZeroObjectReadable(reg.types, reg.types(t));
        forall n | 0 <= n < |j.items| ensures ReadableStruct(reg.types, reg.types(t), Pruned(reg, reg.types(t), j.items[n])) {
          PrunedReadable(reg, reg.types(t), ZeroObject(reg.types(t)), j.items[n]);
        }
      case _ =>
    }
  }

  lemma {:induction false} PrunedMembersReadable(reg: Registry, k: Kind, was: Json, o: map<string, Json>, keys: seq<string>)
    requires Readable(reg.types, k, was) && forall n :: n in keys ==> n in o && Readable(reg.types, k, o[n])
    ensures Readable(reg.types, k, PruneMembers(reg, k, was, o, keys))
    decreases Obj(o), 1, |keys|
  {
    if keys != [] {
      PrunedKindReadable(reg, k, was, o[keys[0]]);
      hide PruneKind, Readable;
      PrunedMembersReadable(reg, k, PruneKind(reg, k, was, o[keys[0]]), o, keys[1..]);
    }
  }

  lemma {:induction false} EntryReadable(reg: Registry, s: Struct, was: Json, o: map<string, Json>, f: string)
    requires f in s.fields && ReadableStruct(reg.types, s, was) && ReadableStruct(reg.types, s, Obj(o))
    ensures Readable(reg.types, s.fields[f].kind, Entry(reg, s, was, o, f))
    decreases Obj(o), 2
  {
    ZeroObjectReadable(reg.types, s);
    ZeroReadable(reg.types, s.fields[f].kind);
    var start := StartJson(s, was);
    assert start.Obj? ==> ReadableField(reg.types, s, start.members, f);
    assert ReadableField(reg.types, s, o, f);
    hide Readable;
    PrunedMembersReadable(reg, s.fields[f].kind, Held(s, start, f), o, Spellings(reg, s.fields.Keys, o, f));
  }

  lemma {:induction false} PrunedReadable(reg: Registry, s: Struct, was: Json, j: Json)
    requires ReadableStruct(reg.types, s, was) && ReadableStruct(reg.types, s, j)
    ensures ReadableStruct(reg.types, s, PruneStruct(reg, s, was, j))
    decreases j, 3
  {
    ZeroObjectReadable(reg.types, s);
    if j.Obj? {
      var o := j.members;
      PrunedMember(reg, s, was, o, "");
      var p := PruneStruct(reg, s, was, j).members;
      forall f | f in s.fields ensures ReadableField(reg.types, s, p, f) {
        EntryReadable(reg, s, was, o, f);
        assert ReadableField(reg.types, s, o, f);
        forall n | n in p && (n == f || IsVariant(s.fields.Keys, n, f)) ensures Readable(reg.types, s.fields[f].kind, p[n]) {
          PrunedMember(reg, s, was, o, n);
          hide Readable, PruneStruct, Entry;
        }
      }
    }
  }

  /** What was decoded once and encoded can be decoded again, whatever the order of its members then. */
  lemma ReencodedDecodes(reg: Registry, again: Registry, s: Struct, d: Json)
    requires DecodeStruct(reg, s, d).Some? && again.types == reg.types
    ensures DecodeStruct(again, s, Encode(DecodeStruct(reg, s, d).value)).Some?
  {
    hide ReadStruct, PruneStruct, ReadableStruct;
    EncodeDecode(reg, s, d);
    DecodesIffReadable(reg, s, ZeroStruct(s), d);
    ZeroObjectReadable(reg.types, s);
    PrunedReadable(reg, s, ZeroObject(s), d);
    DecodesIffReadable(again, s, ZeroStruct(s), Pruned(reg, s, d));
  }

  // ----- the class of documents -----

  /** A second value read into a field of this kind fills the same closed struct further. */
  predicate FillsStruct(reg: Registry, k: Kind) {
    (k.KInline? && !k.struct.open) || (k.KPointer? && !reg.types(k.target).open)
  }

  /** At most two spellings of each declared key in an object, its own and one case variant, and only
      one of them where the field is a closed struct. */
  ghost predicate FewSpellings(reg: Registry, s: Struct, d: Json)
    decreases d, 1
  {
    d.Obj? ==> forall f :: f in s.fields ==> FewSpellingsOf(reg, s, d.members, f)
  }

  ghost predicate FewSpellingsOf(reg: Registry, s: Struct, o: map<string, Json>, f: string)
    requires f in s.fields
    decreases Obj(o), 0
  {
    && (forall j, k | j in o && k in o :: IsVariant(s.fields.Keys, j, f) && IsVariant(s.fields.Keys, k, f) ==> j == k)
    && (FillsStruct(reg, s.fields[f].kind) && f in o ==> !Respelled(s, o, f))
    && (forall n :: n in o && (n == f || IsVariant(s.fields.Keys, n, f)) ==> FewSpellingsIn(reg, s.fields[f].kind, o[n]))
  }

  ghost predicate FewSpellingsIn(reg: Registry, k: Kind, d: Json)
    decreases d, 2
  {
    match k
    case KInline(s) => FewSpellings(reg, s, d)
    case KPointer(t) => FewSpellings(reg, reg.types(t), d)
    case KSlice(t) => d.Arr? ==> forall i :: 0 <= i < |d.items| ==> FewSpellings(reg, reg.types(t), d.items[i])
    case _ => true
  }

  // ----- the condition -----

  /** The member that is read into f last, null if there is none. */
  ghost function LastRead(reg: Registry, s: Struct, o: map<string, Json>, f: string): (j: Json)
    ensures j == Null || j < Obj(o)
  {
    var keys := Spellings(reg, s.fields.Keys, o, f);
    if keys == [] then Null else o[keys[|keys| - 1]]
  }

  /** Dropping f uncovers no case variant of it that is not empty. */
  predicate NothingUncovered(s: Struct, o: map<string, Json>, f: string)
    requires f in s.fields
  {
    s.open ==> forall k :: k in o && IsVariant(s.fields.Keys, k, f) ==> Vacant(s.fields[f].kind, o[k])
  }

  /** Reading x after e, which is what the field came to, leaves e. */
  ghost predicate AddsNothing(again: Registry, k: Kind, e: Json, x: Json) {
    match k
    case KText => x.Null? || x == e
    case KFlag => x.Null? || x == e
    case KInt(_, _) => x.Null? || x == e
    case KInline(s) => (x.Null? && !s.open) || Pruned(again, s, x) == e
    case KAnyMap => if x.Null? then e.Null? else e.Obj? && Within(Entries(x), e.members)
    case KTextMap => if x.Null? then e.Null? else e.Obj? && Within(Blanked(Entries(x)), e.members)
    case _ => PrunedKind(again, k, x) == e
  }

  predicate Within(m: map<string, Json>, n: map<string, Json>) { forall k :: k in m ==> k in n && n[k] == m[k] }

  /** Reading what reg and encoding wrote, in the order of again, changes nothing: no declared key that
      omitempty drops uncovers a case variant of it that is not empty, and a case variant that stays and is
      then read after the declared key says nothing new, at any depth that the second pass sees. */
  ghost predicate Stable(reg: Registry, again: Registry, s: Struct, d: Json)
    decreases d, 2
  {
    d.Obj? ==> forall f :: f in s.fields ==> StableField(reg, again, s, d.members, f)
  }

  ghost predicate StableField(reg: Registry, again: Registry, s: Struct, o: map<string, Json>, f: string)
    requires f in s.fields
    decreases Obj(o), 1
  {
    var kind, last, e := s.fields[f].kind, LastRead(reg, s, o, f), Entry(reg, s, ZeroObject(s), o, f);
    if !Survives(reg, s, ZeroObject(s), o, f) then NothingUncovered(s, o, f)
    else if !s.open || !Respelled(s, o, f) then last == Null || StableIn(reg, again, kind, last)
    else
      forall k :: k in o && IsVariant(s.fields.Keys, k, f) ==>
        if again.late(Entries(Pruned(reg, s, Obj(o))), k, f) then AddsNothing(again, kind, e, o[k])
        else last == Null || StableAfterItself(reg, again, kind, last)
  }

  ghost predicate StableIn(reg: Registry, again: Registry, k: Kind, d: Json)
    decreases d, 3
  {
    match k
    case KInline(s) => Stable(reg, again, s, d)
    case KPointer(t) => Stable(reg, again, reg.types(t), d)
    case KSlice(t) => d.Arr? ==> forall i :: 0 <= i < |d.items| ==> Stable(reg, again, reg.types(t), d.items[i])
    case _ => true
  }

  /** The same for what d came to when d itself is read before it, which only a closed struct remembers. */
  ghost predicate StableAfterItself(reg: Registry, again: Registry, k: Kind, d: Json)
    decreases d, 4
  {
    match k
    case KInline(s) => if s.open then Stable(reg, again, s, d) else ClosedStableAfterItself(reg, again, s, d)
    case KPointer(t) =>
      if reg.types(t).open then Stable(reg, again, reg.types(t), d) else ClosedStableAfterItself(reg, again, reg.types(t), d)
    case _ => StableIn(reg, again, k, d)
  }

  ghost predicate ClosedStableAfterItself(reg: Registry, again: Registry, s: Struct, d: Json)
    decreases d, 3
  {
    d.Obj? ==> forall f :: f in s.fields ==> ClosedFieldStableAfterItself(reg, again, s, d.members, f)
  }

  /** A field that was written is stable, one that was not is empty in the second order too. */
  ghost predicate ClosedFieldStableAfterItself(reg: Registry, again: Registry, s: Struct, o: map<string, Json>, f: string)
    requires f in s.fields
    decreases Obj(o), 2
  {
    var last := LastRead(reg, s, o, f);
    if Survives(reg, s, ZeroObject(s), o, f) then last == Null || StableAfterItself(reg, again, s.fields[f].kind, last)
    else Vacant(s.fields[f].kind, Entry(again, s, ZeroObject(s), o, f))
  }

  // ----- pruning twice, one kind at a time -----

  /** Pruning the object p over was leaves field f of it alone. */
  ghost predicate FieldSettled(reg: Registry, s: Struct, was: Json, p: map<string, Json>, f: string)
    requires f in s.fields
  {
    (Survives(reg, s, was, p, f) <==> f in p) && (f in p ==> Entry(reg, s, was, p, f) == p[f])
  }

  /** An object without unknown keys in a closed struct is left alone when each declared field is. */
  lemma FieldsSettled(reg: Registry, s: Struct, was: Json, p: map<string, Json>)
    requires forall k :: k in p ==> k in s.fields || s.open
    ensures PruneStruct(reg, s, was, Obj(p)) == Obj(p) <==> forall f :: f in s.fields ==> FieldSettled(reg, s, was, p, f)
  {
    hide Vacant, Entry, PruneStruct;
    var e := PruneStruct(reg, s, was, Obj(p));
    PrunedMember(reg, s, was, p, "");
    forall k: string
      ensures k in e.members <==> (k in s.fields || k in p) && Survives(reg, s, was, p, k)
      ensures k in s.fields && Survives(reg, s, was, p, k) ==> e.members[k] == Entry(reg, s, was, p, k)
      ensures k !in s.fields && k in p && s.open ==> e.members[k] == p[k]
    {
      PrunedMember(reg, s, was, p, k);
    }
    if forall f :: f in s.fields ==> FieldSettled(reg, s, was, p, f) {
      assert e.members == p;
    }
  }

  lemma {:induction false} ZeroAgain(reg: Registry, k: Kind)
    ensures PruneKind(reg, k, ZeroJson(k), ZeroJson(k)) == ZeroJson(k)
    decreases k
  {
    if k.KInline? {
      ZeroObjectAgain(reg, k.struct);
    }
  }

  lemma {:induction false} ZeroObjectAgain(reg: Registry, s: Struct)
    ensures PruneStruct(reg, s, ZeroObject(s), ZeroObject(s)) == ZeroObject(s)
    decreases s
  {
    var o := ZeroObject(s).members;
    forall f | f in s.fields ensures FieldSettled(reg, s, ZeroObject(s), o, f) {
      ZeroAgain(reg, s.fields[f].kind);
      HeldZero(s, f);
      SoleEntry(reg, s, ZeroObject(s), o, f);
      EncodeZero(s.fields[f].kind);
      hide PruneKind, Entry, ZeroJson, Vacant;
    }
    FieldsSettled(reg, s, ZeroObject(s), o);
  }

  // ----- two values for one field that is no closed struct -----

  /** Kinds without structs inside are read alike in every order. */
  lemma LeafAlike(reg: Registry, again: Registry, k: Kind, was: Json, j: Json)
    requires !k.KInline? && !k.KPointer? && !k.KSlice?
    ensures PruneKind(reg, k, was, j) == PruneKind(again, k, was, j)
  {
  }

  /** a, then b were read in the first pass, and e is what they came to. */
  ghost function Both(reg: Registry, k: Kind, a: Json, b: Json): Json { PruneKind(reg, k, PrunedKind(reg, k, a), b) }

  /** In the second pass e is read after one of them, or one of them after e, or in a closed struct both
      over e or e over both. */
  ghost predicate TwoSettle(reg: Registry, again: Registry, k: Kind, a: Json, b: Json, e: Json) {
    var once := PrunedKind(again, k, PrunedKind(reg, k, b)) == PrunedKind(reg, k, b);
    && (PruneKind(again, k, PrunedKind(again, k, a), e) == e <==> once)
    && (PruneKind(again, k, PrunedKind(again, k, b), e) == e <==> once)
    && (PrunedKind(again, k, e) == e <==> once)
    && (PruneKind(again, k, PrunedKind(again, k, e), a) == e <==> AddsNothing(again, k, e, a))
    && (PruneKind(again, k, PrunedKind(again, k, e), b) == e <==> AddsNothing(again, k, e, b))
    && (PruneKind(again, k, Both(again, k, a, b), e) == e <==> once)
    && (PruneKind(again, k, Both(again, k, b, a), e) == e <==> once)
    && (PruneKind(again, k, PruneKind(again, k, PrunedKind(again, k, e), a), b) == e <==> Both(again, k, a, b) == e)
    && (PruneKind(again, k, PruneKind(again, k, PrunedKind(again, k, e), b), a) == e <==> Both(again, k, b, a) == e)
  }

  lemma TwoAgain(reg: Registry, again: Registry, k: Kind, a: Json, b: Json)
    requires again.types == reg.types && !FillsStruct(reg, k) && Readable(reg.types, k, a) && Readable(reg.types, k, b)
    ensures TwoSettle(reg, again, k, a, b, Both(reg, k, a, b))
  {
    if k.KAnyMap? || k.KTextMap? {
      TwoMaps(reg, again, k, a, b);
    } else if KeepsOnNull(k) {
      TwoScalars(reg, again, k, a, b);
    } else {
      TwoOverwritten(reg, again, k, a, b);
    }
  }

  /** The entries a map kind takes from a document value. */
  function Taken(k: Kind, j: Json): map<string, Json> { if k.KTextMap? then Blanked(Entries(j)) else Entries(j) }

  /** What a map field holds after null, or after an object with these entries. */
  function Put(was: Json, m: Option<map<string, Json>>): Json { if m.None? then Null else Obj(Entries(was) + m.value) }

  lemma Sums(m: map<string, Json>, n: map<string, Json>)
    ensures map[] + m == m && m + m == m
    ensures m + (m + n) == m + n && (m + n) + n == m + n && n + (m + n) == m + n && (n + m) + (m + n) == m + n
    ensures (m + n) + m == n + m && ((m + n) + m) + n == m + n && ((m + n) + n) + m == n + m
    ensures Within(n, m + n) && (Within(m, m + n) <==> n + m == m + n)
  {
    if n + m == m + n {
      forall k | k in m ensures (m + n)[k] == m[k] { assert (n + m)[k] == m[k]; }
    }
  }

  /** The claims of TwoSettle about such fields; e is what m, then n, come to. */
  lemma PutTwice(m: Option<map<string, Json>>, n: Option<map<string, Json>>, e: Option<map<string, Json>>)
    requires e == if n.None? then None else Some((if m.Some? then m.value else map[]) + n.value)
    ensures var w := Put(Null, e);
            && Put(Put(Null, m), n) == w && Put(Put(Null, m), e) == w && Put(Put(Null, n), e) == w && Put(Null, e) == w && Put(w, e) == w
            && Put(Put(Put(Null, m), n), e) == w && Put(Put(Put(Null, n), m), e) == w
            && (Put(Put(Put(Null, e), m), n) == w <==> Put(Put(Null, m), n) == w)
            && (Put(Put(Put(Null, e), n), m) == w <==> Put(Put(Null, n), m) == w)
            && (Put(Put(Null, e), m) == w <==> if m.None? then e.None? else e.Some? && Within(m.value, e.value))
            && (Put(Put(Null, e), n) == w <==> if n.None? then e.None? else e.Some? && Within(n.value, e.value))
  {
    var x, y := if m.Some? then m.value else map[], if n.Some? then n.value else map[];
    Sums(x, y);
    Sums(y, x);
    hide Within;
  }

  /** A map kind is read as Put says, in every order. */
  lemma ReadsAsPut(reg: Registry, k: Kind, j: Json, was: Json)
    requires (k.KAnyMap? || k.KTextMap?) && (j.Null? || j.Obj?)
    ensures PruneKind(reg, k, was, j) == Put(was, if j.Null? then None else Some(Taken(k, j)))
  {
  }

  lemma TwoMaps(reg: Registry, again: Registry, k: Kind, a: Json, b: Json)
    requires (k.KAnyMap? || k.KTextMap?) && (a.Null? || a.Obj?) && (b.Null? || b.Obj?)
    ensures TwoSettle(reg, again, k, a, b, Both(reg, k, a, b))
  {
    var m, n := if a.Null? then None else Some(Taken(k, a)), if b.Null? then None else Some(Taken(k, b));
    var x := if m.Some? then m.value else map[];
    var e := if n.None? then None else Some(x + n.value);
    TakenAgain(k, a, b, x);
    forall was: Json
      ensures PruneKind(reg, k, was, a) == PruneKind(again, k, was, a) == Put(was, m)
      ensures PruneKind(reg, k, was, b) == PruneKind(again, k, was, b) == Put(was, n)
      ensures PruneKind(again, k, was, Put(Null, e)) == Put(was, e)
      ensures PruneKind(again, k, was, Put(Null, n)) == Put(was, n)
    {
      ReadsAsPut(reg, k, a, was);
      ReadsAsPut(again, k, a, was);
      ReadsAsPut(reg, k, b, was);
      ReadsAsPut(again, k, b, was);
      ReadsAsPut(again, k, Put(Null, e), was);
      ReadsAsPut(again, k, Put(Null, n), was);
      hide PruneKind, Taken;
    }
    MapAddsNothing(again, k, e, a, m);
    MapAddsNothing(again, k, e, b, n);
    hide PruneKind, Taken;
    TwoPuts(reg, again, k, a, b, m, n, e);
  }

  lemma TwoPuts(reg: Registry, again: Registry, k: Kind, a: Json, b: Json, m: Option<map<string, Json>>, n: Option<map<string, Json>>,
      e: Option<map<string, Json>>)
    requires k.KAnyMap? || k.KTextMap?
    requires e == if n.None? then None else Some((if m.Some? then m.value else map[]) + n.value)
    requires forall was: Json :: PruneKind(reg, k, was, a) == PruneKind(again, k, was, a) == Put(was, m)
    requires forall was: Json :: PruneKind(reg, k, was, b) == PruneKind(again, k, was, b) == Put(was, n)
    requires forall was: Json :: PruneKind(again, k, was, Put(Null, e)) == Put(was, e)
    requires forall was: Json :: PruneKind(again, k, was, Put(Null, n)) == Put(was, n)
    requires AddsNothing(again, k, Put(Null, e), a) <==> if m.None? then e.None? else e.Some? && Within(m.value, e.value)
    requires AddsNothing(again, k, Put(Null, e), b) <==> if n.None? then e.None? else e.Some? && Within(n.value, e.value)
    ensures TwoSettle(reg, again, k, a, b, Both(reg, k, a, b))
  {
    hide PruneKind, Put, AddsNothing, Within;
    PutTwice(m, n, e);
    assert PrunedKind(reg, k, a) == Put(Null, m) && Both(reg, k, a, b) == Put(Null, e);
    assert PrunedKind(reg, k, b) == Put(Null, n);
  }

  lemma TakenAgain(k: Kind, a: Json, b: Json, x: map<string, Json>)
    requires (k.KAnyMap? || k.KTextMap?) && (a.Null? || a.Obj?) && (b.Null? || b.Obj?) && x == (if a.Null? then map[] else Taken(k, a))
    ensures b.Obj? ==> Taken(k, Obj(map[] + Taken(k, b))) == Taken(k, b)
    ensures b.Obj? ==> Taken(k, Obj(map[] + (x + Taken(k, b)))) == x + Taken(k, b)
  {
    assert b.Obj? ==> map[] + Taken(k, b) == Taken(k, b) && map[] + (x + Taken(k, b)) == x + Taken(k, b);
  }

  lemma MapAddsNothing(again: Registry, k: Kind, e: Option<map<string, Json>>, j: Json, m: Option<map<string, Json>>)
    requires (k.KAnyMap? || k.KTextMap?) && (j.Null? || j.Obj?) && m == (if j.Null? then None else Some(Taken(k, j)))
    ensures AddsNothing(again, k, Put(Null, e), j) <==> if m.None? then e.None? else e.Some? && Within(m.value, e.value)
  {
    assert e.Some? ==> map[] + e.value == e.value;
    hide Within;
  }

  lemma TwoScalars(reg: Registry, again: Registry, k: Kind, a: Json, b: Json)
    requires KeepsOnNull(k) && !FillsStruct(reg, k) && Readable(reg.types, k, a) && Readable(reg.types, k, b)
    ensures TwoSettle(reg, again, k, a, b, Both(reg, k, a, b))
  {
  }

  lemma TwoOverwritten(reg: Registry, again: Registry, k: Kind, a: Json, b: Json)
    requires again.types == reg.types && !FillsStruct(reg, k) && !k.KAnyMap? && !k.KTextMap? && !KeepsOnNull(k)
    ensures TwoSettle(reg, again, k, a, b, Both(reg, k, a, b))
  {
    var e := PrunedKind(reg, k, b);
    forall was: Json
      ensures PruneKind(reg, k, was, b) == e
      ensures PruneKind(again, k, was, a) == PrunedKind(again, k, a) && PruneKind(again, k, was, b) == PrunedKind(again, k, b)
      ensures PruneKind(again, k, was, e) == PrunedKind(again, k, e)
    {
      OverwritesAll(reg, k, was, b);
      OverwritesAll(again, k, was, a);
      OverwritesAll(again, k, was, b);
      OverwritesAll(again, k, was, e);
    }
    OverwrittenAddsNothing(again, k, e, a);
    OverwrittenAddsNothing(again, k, e, b);
    LastOneCounts(reg, again, k, a, b, e, PrunedKind(again, k, a), PrunedKind(again, k, b), PrunedKind(again, k, e));
  }

  lemma LastOneCounts(reg: Registry, again: Registry, k: Kind, a: Json, b: Json, e: Json, nextA: Json, nextB: Json, nextE: Json)
    requires forall was: Json :: PruneKind(reg, k, was, b) == e
    requires forall was: Json :: PruneKind(again, k, was, a) == nextA
    requires forall was: Json :: PruneKind(again, k, was, b) == nextB
    requires forall was: Json :: PruneKind(again, k, was, e) == nextE
    requires AddsNothing(again, k, e, a) <==> nextA == e
    requires AddsNothing(again, k, e, b) <==> nextB == e
    ensures TwoSettle(reg, again, k, a, b, Both(reg, k, a, b))
  {
    hide PruneKind, AddsNothing, ZeroJson;
    assert Both(reg, k, a, b) == e && PrunedKind(reg, k, b) == e;
    assert PrunedKind(again, k, e) == PruneKind(again, k, PrunedKind(again, k, a), e) == PruneKind(again, k, PrunedKind(again, k, b), e) == nextE;
    assert PruneKind(again, k, Both(again, k, a, b), e) == PruneKind(again, k, Both(again, k, b, a), e) == nextE;
    assert PruneKind(again, k, PrunedKind(again, k, e), a) == Both(again, k, b, a) == nextA;
    assert PruneKind(again, k, PrunedKind(again, k, e), b) == Both(again, k, a, b) == nextB;
    assert PruneKind(again, k, PruneKind(again, k, PrunedKind(again, k, e), a), b) == nextB;
    assert PruneKind(again, k, PruneKind(again, k, PrunedKind(again, k, e), b), a) == nextA;
    hide Both, PrunedKind;
  }

  lemma OverwrittenAddsNothing(again: Registry, k: Kind, e: Json, x: Json)
    requires !FillsStruct(again, k) && !k.KAnyMap? && !k.KTextMap? && !KeepsOnNull(k)
    ensures AddsNothing(again, k, e, x) <==> PrunedKind(again, k, x) == e
  {
    if k.KInline? && x.Null? { StartsOver(again, k.struct, ZeroObject(k.struct), x); }
    hide PruneStruct;
  }

  lemma OverwritesAll(reg: Registry, k: Kind, was: Json, j: Json)
    requires !FillsStruct(reg, k) && !k.KAnyMap? && !k.KTextMap? && !KeepsOnNull(k)
    ensures PruneKind(reg, k, was, j) == PruneKind(reg, k, ZeroJson(k), j)
  {
    hide PruneStruct;
    match k
    case KInline(s) =>
      OpenStartsOver(reg, s, was, j);
      OpenStartsOver(reg, s, ZeroJson(k), j);
    case KPointer(t) =>
      OpenStartsOver(reg, reg.types(t), if was.Obj? then was else ZeroObject(reg.types(t)), j);
      OpenStartsOver(reg, reg.types(t), ZeroObject(reg.types(t)), j);
    case _ =>
  }

  lemma SameEntries(reg: Registry, again: Registry, s: Struct, was: Json, other: Json, o: map<string, Json>)
    requires forall f :: f in s.fields ==> Entry(reg, s, was, o, f) == Entry(again, s, other, o, f)
    ensures PruneStruct(reg, s, was, Obj(o)) == PruneStruct(again, s, other, Obj(o))
  {
    hide Vacant, Entry, PruneStruct;
    var p, q := PruneStruct(reg, s, was, Obj(o)), PruneStruct(again, s, other, Obj(o));
    PrunedMember(reg, s, was, o, "");
    PrunedMember(again, s, other, o, "");
    forall k ensures k in p.members <==> k in q.members ensures k in p.members ==> p.members[k] == q.members[k] {
      PrunedMember(reg, s, was, o, k);
      PrunedMember(again, s, other, o, k);
    }
    assert p.members == q.members;
  }

  lemma StartsOver(reg: Registry, s: Struct, was: Json, j: Json)
    requires !j.Obj?
    ensures PruneStruct(reg, s, was, j) == StartJson(s, was) && Pruned(reg, s, j) == StartJson(s, ZeroObject(s))
  {
  }

  lemma OpenStartsOver(reg: Registry, s: Struct, was: Json, j: Json)
    requires s.open
    ensures PruneStruct(reg, s, was, j) == Pruned(reg, s, j)
  {
    hide PruneMembers, Held, PruneStruct;
    if j.Obj? {
      SameEntries(reg, reg, s, was, ZeroObject(s), j.members);
    } else {
      StartsOver(reg, s, was, j);
    }
  }

  // ----- pruning a pruned document, in another order -----

  /** What is left of an object once pruned: the surviving fields, and the unknown keys if open. */
  lemma LeftBehind(reg: Registry, s: Struct, o: map<string, Json>, f: string)
    requires f in s.fields
    ensures Pruned(reg, s, Obj(o)).Obj?
    ensures var p := Pruned(reg, s, Obj(o)).members;
            && (f in p <==> Survives(reg, s, ZeroObject(s), o, f))
            && (f in p ==> p[f] == Entry(reg, s, ZeroObject(s), o, f))
            && (forall k :: k in p && k !in s.fields <==> k in o && k !in s.fields && s.open)
            && (forall k :: k in p && k !in s.fields ==> p[k] == o[k])
  {
    PrunedMember(reg, s, ZeroObject(s), o, f);
    var p := Pruned(reg, s, Obj(o)).members;
    forall k | k !in s.fields ensures k in p <==> k in o && s.open ensures k in p ==> p[k] == o[k] {
      PrunedMember(reg, s, ZeroObject(s), o, k);
    }
  }

  lemma LastReadIs(reg: Registry, s: Struct, o: map<string, Json>, f: string)
    requires f in s.fields
    ensures !Respelled(s, o, f) ==> LastRead(reg, s, o, f) == if f in o then o[f] else Null
    ensures forall k :: k in o && IsVariant(s.fields.Keys, k, f) && (forall n :: n in o && IsVariant(s.fields.Keys, n, f) ==> n == k) ==>
              LastRead(reg, s, o, f) == if f in o && !reg.late(o, k, f) then o[f] else o[k]
  {
    hide Spellings;
    if k :| k in o && IsVariant(s.fields.Keys, k, f) {
      if forall n :: n in o && IsVariant(s.fields.Keys, n, f) ==> n == k {
        TwoSpellings(reg, s.fields.Keys, o, f, k);
      }
    } else {
      SoleSpelling(reg, s, Zero(s.fields[f].kind), o, f);
    }
  }

  /** A field of an open struct, no case variant beside it. */
  lemma {:induction false} OpenSoleAgain(reg: Registry, again: Registry, s: Struct, o: map<string, Json>, f: string)
    requires again.types == reg.types
    requires f in s.fields && s.open && ReadableStruct(reg.types, s, Obj(o)) && FewSpellings(reg, s, Obj(o)) && !Respelled(s, o, f)
    ensures Pruned(reg, s, Obj(o)).Obj?
    ensures FieldSettled(again, s, ZeroObject(s), Pruned(reg, s, Obj(o)).members, f) <==> StableField(reg, again, s, o, f)
    decreases Obj(o), 2
  {
    LeftBehind(reg, s, o, f);
    var kind, p := s.fields[f].kind, Pruned(reg, s, Obj(o)).members;
    HeldZero(s, f);
    SoleEntry(reg, s, ZeroObject(s), o, f);
    SoleEntry(again, s, ZeroObject(s), p, f);
    LastReadIs(reg, s, o, f);
    EncodeZero(kind);
    ZeroAgain(again, kind);
    if f in o {
      assert ReadableField(reg.types, s, o, f) && FewSpellingsOf(reg, s, o, f);
      KindAgain(reg, again, kind, o[f]);
      NullStable(reg, again, kind);
    }
    hide PruneKind, PruneStruct, Entry, Vacant, ZeroJson, StableIn, LastRead, Respelled;
  }

  lemma NullStable(reg: Registry, again: Registry, k: Kind)
    ensures StableIn(reg, again, k, Null) && StableAfterItself(reg, again, k, Null)
  {
  }

  /** What x, once kept, and e, which the field came to, are read as in the second pass. */
  lemma {:induction false} VariantSettles(reg: Registry, again: Registry, s: Struct, o: map<string, Json>, f: string, k: string)
    requires again.types == reg.types
    requires f in s.fields && s.open && ReadableStruct(reg.types, s, Obj(o)) && FewSpellings(reg, s, Obj(o))
    requires k in o && IsVariant(s.fields.Keys, k, f)
    ensures var kind, e, last := s.fields[f].kind, Entry(reg, s, ZeroObject(s), o, f), LastRead(reg, s, o, f);
            && (PruneKind(again, kind, PrunedKind(again, kind, e), o[k]) == e <==> AddsNothing(again, kind, e, o[k]))
            && (PruneKind(again, kind, PrunedKind(again, kind, o[k]), e) == e <==> last == Null || StableAfterItself(reg, again, kind, last))
    decreases Obj(o), 2
  {
    var kind := s.fields[f].kind;
    assert FewSpellingsOf(reg, s, o, f) && ReadableField(reg.types, s, o, f);
    HeldZero(s, f);
    OneVariantEntry(reg, s, ZeroObject(s), o, f, k);
    LastReadIs(reg, s, o, f);
    KindAgain(reg, again, kind, o[k]);
    NullStable(reg, again, kind);
    if f in o {
      KindAgain(reg, again, kind, o[f]);
      TwoAgain(reg, again, kind, o[f], o[k]);
      TwoAgain(reg, again, kind, o[k], o[f]);
      OnlyClosedRemember(reg, again, kind, o[f]);
      OnlyClosedRemember(reg, again, kind, o[k]);
    } else {
      SoleAddsNothing(reg, again, kind, o[k]);
    }
    hide PruneKind, PruneStruct, Entry, ZeroJson, StableIn, StableAfterItself, LastRead, AddsNothing, Readable, FewSpellingsIn, FewSpellings,
      ReadableField, FewSpellingsOf;
  }

  lemma OnlyClosedRemember(reg: Registry, again: Registry, k: Kind, d: Json)
    requires !FillsStruct(reg, k)
    ensures StableAfterItself(reg, again, k, d) == StableIn(reg, again, k, d)
  {
  }

  /** A value adds nothing to what it came to itself if it comes to the same in the second order. */
  lemma SoleAddsNothing(reg: Registry, again: Registry, k: Kind, x: Json)
    requires again.types == reg.types && Readable(reg.types, k, x)
    ensures AddsNothing(again, k, PrunedKind(reg, k, x), x) <==> PrunedKind(again, k, x) == PrunedKind(reg, k, x)
  {
    hide PruneStruct;
    match k
    case KAnyMap => if x.Obj? { assert map[] + x.members == x.members; }
    case KTextMap => if x.Obj? { assert map[] + Blanked(x.members) == Blanked(x.members); }
    case KInline(s) => StartsOver(again, s, ZeroObject(s), Null); StartsOver(reg, s, ZeroObject(s), Null);
    case _ =>
  }

  /** What the second pass reads into f from what is left: the kept variant k and, if it survived, f. */
  lemma EntryOfLeft(reg: Registry, again: Registry, s: Struct, o: map<string, Json>, f: string, k: string)
    requires f in s.fields && s.open && k in o && IsVariant(s.fields.Keys, k, f)
    requires forall n :: n in o && IsVariant(s.fields.Keys, n, f) ==> n == k
    ensures Pruned(reg, s, Obj(o)).Obj?
    ensures var p, kind, e := Pruned(reg, s, Obj(o)).members, s.fields[f].kind, Entry(reg, s, ZeroObject(s), o, f);
            && (f in p <==> Survives(reg, s, ZeroObject(s), o, f)) && (f in p ==> p[f] == e)
            && Entry(again, s, ZeroObject(s), p, f) ==
               if f !in p then PrunedKind(again, kind, o[k])
               else if again.late(p, k, f) then PruneKind(again, kind, PrunedKind(again, kind, e), o[k])
               else PruneKind(again, kind, PrunedKind(again, kind, o[k]), e)
  {
    LeftBehind(reg, s, o, f);
    var p := Pruned(reg, s, Obj(o)).members;
    HeldZero(s, f);
    OneVariantEntry(again, s, ZeroObject(s), p, f, k);
    hide PruneKind, PruneStruct, Entry, Vacant, ZeroJson, Spellings;
  }

  /** A field of an open struct with a case variant k beside it or in its stead. */
  lemma {:induction false} OpenVariantAgain(reg: Registry, again: Registry, s: Struct, o: map<string, Json>, f: string, k: string)
    requires again.types == reg.types
    requires f in s.fields && s.open && ReadableStruct(reg.types, s, Obj(o)) && FewSpellings(reg, s, Obj(o))
    requires k in o && IsVariant(s.fields.Keys, k, f)
    ensures Pruned(reg, s, Obj(o)).Obj?
    ensures FieldSettled(again, s, ZeroObject(s), Pruned(reg, s, Obj(o)).members, f) <==> StableField(reg, again, s, o, f)
    decreases Obj(o), 3
  {
    assert FewSpellingsOf(reg, s, o, f) && ReadableField(reg.types, s, o, f);
    EntryOfLeft(reg, again, s, o, f, k);
    VacantPruned(again, s.fields[f].kind, o[k]);
    VariantSettles(reg, again, s, o, f, k);
    hide PruneKind, Pruned, Entry, Vacant, ZeroJson, StableIn, StableAfterItself, LastRead, AddsNothing, Readable, FewSpellingsIn, FewSpellings,
      ReadableField, ReadableStruct;
  }

  lemma {:induction false} OpenAgain(reg: Registry, again: Registry, s: Struct, o: map<string, Json>)
    requires again.types == reg.types && s.open && ReadableStruct(reg.types, s, Obj(o)) && FewSpellings(reg, s, Obj(o))
    ensures var e := Pruned(reg, s, Obj(o)); e.Obj? && (Pruned(again, s, e) == e <==> Stable(reg, again, s, Obj(o)))
    decreases Obj(o), 4
  {
    PrunedMember(reg, s, ZeroObject(s), o, "");
    var p := Pruned(reg, s, Obj(o)).members;
    forall f | f in s.fields ensures FieldSettled(again, s, ZeroObject(s), p, f) <==> StableField(reg, again, s, o, f) {
      if k :| k in o && IsVariant(s.fields.Keys, k, f) {
        OpenVariantAgain(reg, again, s, o, f, k);
      } else {
        OpenSoleAgain(reg, again, s, o, f);
      }
    }
    hide PruneStruct, FieldSettled, StableField, ReadableStruct, FewSpellings;
    FieldsSettled(again, s, ZeroObject(s), p);
  }

  // ----- closed structs -----

  /** An entry e of a closed struct in the second pass: alone, after what the original object comes to then,
      and before the original object. */
  ghost predicate EntrySettles(reg: Registry, again: Registry, s: Struct, o: map<string, Json>, f: string)
    requires f in s.fields
  {
    var kind, e, q := s.fields[f].kind, Entry(reg, s, ZeroObject(s), o, f), Entry(again, s, ZeroObject(s), o, f);
    var last, keys := LastRead(reg, s, o, f), Spellings(again, s.fields.Keys, o, f);
    var after := last == Null || StableAfterItself(reg, again, kind, last);
    && (PrunedKind(again, kind, e) == e <==> last == Null || StableIn(reg, again, kind, last))
    && (PruneKind(again, kind, q, e) == e <==> after)
    && (Vacant(kind, q) ==> (PrunedKind(again, kind, e) == e <==> after))
    && (PruneMembers(again, kind, PrunedKind(again, kind, e), o, keys) == e <==> q == e)
  }

  lemma {:induction false} EntryUnread(reg: Registry, again: Registry, s: Struct, o: map<string, Json>, f: string)
    requires f in s.fields && f !in o && !Respelled(s, o, f)
    ensures EntrySettles(reg, again, s, o, f)
  {
    var kind := s.fields[f].kind;
    HeldZero(s, f);
    ZeroAgain(again, kind);
    SoleEntry(reg, s, ZeroObject(s), o, f);
    SoleEntry(again, s, ZeroObject(s), o, f);
    SoleSpelling(again, s, Zero(kind), o, f);
    LastReadIs(reg, s, o, f);
    hide PruneKind, Entry, ZeroJson, StableIn, StableAfterItself, Spellings, LastRead, ReadField, Respelled, Vacant;
  }

  /** The one spelling n of f. */
  lemma {:induction false} EntryReadOnce(reg: Registry, again: Registry, s: Struct, o: map<string, Json>, f: string, n: string)
    requires again.types == reg.types && f in s.fields && n in o && Readable(reg.types, s.fields[f].kind, o[n])
    requires FewSpellingsIn(reg, s.fields[f].kind, o[n])
    requires if n == f then !Respelled(s, o, f) else f !in o && IsVariant(s.fields.Keys, n, f)
    requires forall k :: k in o && IsVariant(s.fields.Keys, k, f) ==> k == n
    ensures EntrySettles(reg, again, s, o, f)
    decreases Obj(o), 1
  {
    var kind := s.fields[f].kind;
    var again' := PrunedKind(again, kind, Entry(reg, s, ZeroObject(s), o, f));
    HeldZero(s, f);
    LastReadIs(reg, s, o, f);
    if n == f {
      SoleEntry(reg, s, ZeroObject(s), o, f);
      SoleEntry(again, s, ZeroObject(s), o, f);
      SoleSpelling(again, s, Zero(kind), o, f);
    } else {
      OneVariantEntry(reg, s, ZeroObject(s), o, f, n);
      OneVariantEntry(again, s, ZeroObject(s), o, f, n);
      TwoSpellings(again, s.fields.Keys, o, f, n);
    }
    PruneOne(again, kind, again', o, n);
    KindAgain(reg, again, kind, o[n]);
    NullStable(reg, again, kind);
    VacantRemembersNothing(reg, again, kind, o[n]);
    hide PruneKind, PruneMembers, Entry, ZeroJson, StableIn, StableAfterItself, Spellings, LastRead, ReadField, Respelled, Vacant, Readable,
      FewSpellingsIn;
  }

  lemma VacantRemembersNothing(reg: Registry, again: Registry, k: Kind, j: Json)
    requires again.types == reg.types && Readable(reg.types, k, j)
    ensures Vacant(k, PrunedKind(again, k, j)) ==> (StableAfterItself(reg, again, k, j) <==> StableIn(reg, again, k, j))
  {
    if FillsStruct(reg, k) {
      VacantPruned(again, k, j);
      NullStable(reg, again, k);
      hide PruneKind, StableAfterItself, StableIn;
    } else {
      OnlyClosedRemember(reg, again, k, j);
    }
  }

  /** Two spellings, a read before b in the first order. */
  lemma TwoEntries(reg: Registry, again: Registry, s: Struct, o: map<string, Json>, f: string, k: string, a: string, b: string)
    requires f in s.fields && f in o && k in o && IsVariant(s.fields.Keys, k, f)
    requires forall n :: n in o && IsVariant(s.fields.Keys, n, f) ==> n == k
    requires if reg.late(o, k, f) then a == f && b == k else a == k && b == f
    ensures var kind, keys := s.fields[f].kind, Spellings(again, s.fields.Keys, o, f);
            && Entry(reg, s, ZeroObject(s), o, f) == Both(reg, kind, o[a], o[b])
            && LastRead(reg, s, o, f) == o[b]
            && keys == (if again.late(o, k, f) == reg.late(o, k, f) then [a, b] else [b, a])
            && Entry(again, s, ZeroObject(s), o, f) ==
                 if again.late(o, k, f) == reg.late(o, k, f) then Both(again, kind, o[a], o[b]) else Both(again, kind, o[b], o[a])
  {
    HeldZero(s, f);
    LastReadIs(reg, s, o, f);
    OneVariantEntry(reg, s, ZeroObject(s), o, f, k);
    OneVariantEntry(again, s, ZeroObject(s), o, f, k);
    TwoSpellings(again, s.fields.Keys, o, f, k);
    hide PruneKind, Entry, ZeroJson, Spellings, LastRead;
  }

  lemma {:induction false} EntryReadTwice(reg: Registry, again: Registry, s: Struct, o: map<string, Json>, f: string, k: string)
    requires again.types == reg.types && f in s.fields && ReadableField(reg.types, s, o, f) && FewSpellingsOf(reg, s, o, f)
    requires f in o && k in o && IsVariant(s.fields.Keys, k, f)
    ensures EntrySettles(reg, again, s, o, f)
    decreases Obj(o), 1
  {
    var kind := s.fields[f].kind;
    var a, b := if reg.late(o, k, f) then f else k, if reg.late(o, k, f) then k else f;
    TwoEntries(reg, again, s, o, f, k, a, b);
    var next := PrunedKind(again, kind, Both(reg, kind, o[a], o[b]));
    PruneTwo(again, kind, next, o, a, b);
    PruneTwo(again, kind, next, o, b, a);
    KindAgain(reg, again, kind, o[b]);
    OnlyClosedRemember(reg, again, kind, o[b]);
    NullStable(reg, again, kind);
    TwoAgain(reg, again, kind, o[a], o[b]);
    hide PruneKind, PruneMembers, Entry, ZeroJson, StableIn, StableAfterItself, Spellings, LastRead, Respelled, Vacant, Readable,
      FewSpellingsIn, ReadableField, FewSpellingsOf, AddsNothing, Both;
  }

  lemma {:induction false} EntryAgain(reg: Registry, again: Registry, s: Struct, o: map<string, Json>, f: string)
    requires again.types == reg.types && f in s.fields && ReadableStruct(reg.types, s, Obj(o)) && FewSpellings(reg, s, Obj(o))
    ensures EntrySettles(reg, again, s, o, f)
    decreases Obj(o), 2
  {
    assert ReadableField(reg.types, s, o, f) && FewSpellingsOf(reg, s, o, f);
    hide EntrySettles;
    if k :| k in o && IsVariant(s.fields.Keys, k, f) {
      if f in o { EntryReadTwice(reg, again, s, o, f, k); } else { EntryReadOnce(reg, again, s, o, f, k); }
    } else if f in o {
      EntryReadOnce(reg, again, s, o, f, f);
    } else {
      EntryUnread(reg, again, s, o, f);
    }
  }

  /** Pruning o over was gives field f as p has it. */
  ghost predicate Matches(reg: Registry, s: Struct, was: Json, o: map<string, Json>, p: map<string, Json>, f: string)
    requires f in s.fields
  {
    (Survives(reg, s, was, o, f) <==> f in p) && (f in p ==> Entry(reg, s, was, o, f) == p[f])
  }

  lemma MatchesAll(reg: Registry, s: Struct, was: Json, o: map<string, Json>, p: map<string, Json>)
    requires !s.open && forall k :: k in p ==> k in s.fields
    ensures PruneStruct(reg, s, was, Obj(o)) == Obj(p) <==> forall f :: f in s.fields ==> Matches(reg, s, was, o, p, f)
  {
    hide Vacant, Entry, PruneStruct;
    var e := PruneStruct(reg, s, was, Obj(o));
    PrunedMember(reg, s, was, o, "");
    forall k: string
      ensures k in e.members <==> (k in s.fields || k in o) && Survives(reg, s, was, o, k)
      ensures k in s.fields && Survives(reg, s, was, o, k) ==> e.members[k] == Entry(reg, s, was, o, k)
    {
      PrunedMember(reg, s, was, o, k);
    }
    if forall f :: f in s.fields ==> Matches(reg, s, was, o, p, f) {
      assert e.members == p;
    }
  }

  /** What a pruned closed struct holds of f when it is read over. */
  lemma HeldAgain(reg: Registry, again: Registry, s: Struct, o: map<string, Json>, f: string)
    requires f in s.fields && !s.open
    ensures var e, kind := Pruned(reg, s, Obj(o)), s.fields[f].kind;
            var h, q := Held(s, StartJson(s, Pruned(again, s, e)), f), Entry(again, s, ZeroObject(s), o, f);
            && e.Obj?
            && (h == ZeroJson(kind) || (f in e.members && h == PrunedKind(again, kind, Entry(reg, s, ZeroObject(s), o, f))))
            && Held(s, StartJson(s, Pruned(again, s, Obj(o))), f) == (if Survives(again, s, ZeroObject(s), o, f) then q else ZeroJson(kind))
  {
    LeftBehind(reg, s, o, f);
    LeftBehind(again, s, o, f);
    var p := Pruned(reg, s, Obj(o)).members;
    LeftBehind(again, s, p, f);
    SoleEntry(again, s, ZeroObject(s), p, f);
    HeldZero(s, f);
    hide PruneKind, PruneStruct, Entry, Vacant, ZeroJson;
  }

  /** A field of a closed struct in the second pass: alone, after the original, and before it. */
  lemma {:induction false} ClosedFieldAgain(reg: Registry, again: Registry, s: Struct, o: map<string, Json>, f: string)
    requires again.types == reg.types
    requires f in s.fields && !s.open && ReadableStruct(reg.types, s, Obj(o)) && FewSpellings(reg, s, Obj(o))
    ensures Pruned(reg, s, Obj(o)).Obj?
    ensures var p := Pruned(reg, s, Obj(o)).members;
            && (FieldSettled(again, s, ZeroObject(s), p, f) <==> StableField(reg, again, s, o, f))
            && (FieldSettled(again, s, Pruned(again, s, Obj(o)), p, f) <==> ClosedFieldStableAfterItself(reg, again, s, o, f))
            && (Matches(again, s, Pruned(again, s, Obj(p)), o, p, f) <==> Matches(again, s, ZeroObject(s), o, p, f))
    decreases Obj(o), 3
  {
    LeftBehind(reg, s, o, f);
    var kind, p := s.fields[f].kind, Pruned(reg, s, Obj(o)).members;
    HeldZero(s, f);
    HeldAgain(reg, again, s, o, f);
    SoleEntry(again, s, ZeroObject(s), p, f);
    SoleEntry(again, s, Pruned(again, s, Obj(o)), p, f);
    EncodeZero(kind);
    EntryAgain(reg, again, s, o, f);
    EntryOver(again, s, Pruned(again, s, Obj(p)), o, f);
    hide PruneKind, Pruned, Entry, Vacant, ZeroJson, StableIn, StableAfterItself, Spellings, ReadableStruct, FewSpellings, LastRead, PruneMembers, Held,
      StartJson;
  }

  lemma EntryOver(reg: Registry, s: Struct, was: Json, o: map<string, Json>, f: string)
    requires f in s.fields
    ensures var kind, keys := s.fields[f].kind, Spellings(reg, s.fields.Keys, o, f);
            && Entry(reg, s, was, o, f) == PruneMembers(reg, kind, Held(s, StartJson(s, was), f), o, keys)
            && Entry(reg, s, ZeroObject(s), o, f) == PruneMembers(reg, kind, ZeroJson(kind), o, keys)
  {
    HeldZero(s, f);
  }

  lemma {:induction false} ClosedAgain(reg: Registry, again: Registry, s: Struct, o: map<string, Json>)
    requires again.types == reg.types && !s.open && ReadableStruct(reg.types, s, Obj(o)) && FewSpellings(reg, s, Obj(o))
    ensures var e := Pruned(reg, s, Obj(o));
            && e.Obj?
            && (Pruned(again, s, e) == e <==> Stable(reg, again, s, Obj(o)))
            && (PruneStruct(again, s, Pruned(again, s, Obj(o)), e) == e <==> ClosedStableAfterItself(reg, again, s, Obj(o)))
            && (PruneStruct(again, s, Pruned(again, s, e), Obj(o)) == e <==> Pruned(again, s, Obj(o)) == e)
    decreases Obj(o), 4
  {
    PrunedMember(reg, s, ZeroObject(s), o, "");
    var p := Pruned(reg, s, Obj(o)).members;
    forall f | f in s.fields
      ensures FieldSettled(again, s, ZeroObject(s), p, f) <==> StableField(reg, again, s, o, f)
      ensures FieldSettled(again, s, Pruned(again, s, Obj(o)), p, f) <==> ClosedFieldStableAfterItself(reg, again, s, o, f)
      ensures Matches(again, s, Pruned(again, s, Obj(p)), o, p, f) <==> Matches(again, s, ZeroObject(s), o, p, f)
    {
      ClosedFieldAgain(reg, again, s, o, f);
    }
    forall k | k in p ensures k in s.fields { PrunedMember(reg, s, ZeroObject(s), o, k); }
    hide PruneStruct, FieldSettled, StableField, ClosedFieldStableAfterItself, ReadableStruct, FewSpellings, Matches;
    FieldsSettled(again, s, ZeroObject(s), p);
    FieldsSettled(again, s, Pruned(again, s, Obj(o)), p);
    MatchesAll(again, s, Pruned(again, s, Obj(p)), o, p);
    MatchesAll(again, s, ZeroObject(s), o, p);
  }

  // ----- all kinds -----

  /** A struct read once in the first order; its pruned form read in the second, alone, after the original,
      and before it. */
  lemma {:induction false} StructAgain(reg: Registry, again: Registry, s: Struct, j: Json)
    requires again.types == reg.types && ReadableStruct(reg.types, s, j) && FewSpellings(reg, s, j)
    ensures var e := Pruned(reg, s, j);
            && e.Obj?
            && (Pruned(again, s, e) == e <==> Stable(reg, again, s, j))
            && (PruneStruct(again, s, Pruned(again, s, j), e) == e <==>
                  if s.open then Stable(reg, again, s, j) else ClosedStableAfterItself(reg, again, s, j))
            && (PruneStruct(again, s, Pruned(again, s, e), j) == e <==> Pruned(again, s, j) == e)
    decreases j, 5
  {
    if j.Null? {
      ZeroObjectAgain(again, s);
    } else if s.open {
      OpenAgain(reg, again, s, j.members);
      var e := Pruned(reg, s, j);
      OpenStartsOver(again, s, Pruned(again, s, j), e);
      OpenStartsOver(again, s, Pruned(again, s, e), j);
    } else {
      ClosedAgain(reg, again, s, j.members);
    }
  }

  lemma {:induction false} SliceAgain(reg: Registry, again: Registry, t: TypeName, j: Json)
    requires again.types == reg.types && j.Arr? && Readable(reg.types, KSlice(t), j) && FewSpellingsIn(reg, KSlice(t), j)
    ensures var e := PrunedKind(reg, KSlice(t), j);
            PrunedKind(again, KSlice(t), e) == e <==> StableIn(reg, again, KSlice(t), j)
    decreases j, 5
  {
    var e := PrunedKind(reg, KSlice(t), j);
    forall i | 0 <= i < |j.items| ensures Pruned(again, reg.types(t), e.items[i]) == e.items[i] <==> Stable(reg, again, reg.types(t), j.items[i]) {
      StructAgain(reg, again, reg.types(t), j.items[i]);
    }
    hide PruneStruct, Stable, Pruned;
    var next := PrunedKind(again, KSlice(t), e);
    if next == e {
      forall i | 0 <= i < |j.items| ensures Pruned(again, reg.types(t), e.items[i]) == e.items[i] { assert next.items[i] == e.items[i]; }
    } else {
      assert next.items != e.items;
    }
  }

  /** A value without structs inside. */
  lemma LeafAgain(reg: Registry, again: Registry, k: Kind, j: Json)
    requires again.types == reg.types && Readable(reg.types, k, j) && !k.KInline? && !k.KPointer? && !k.KSlice?
    ensures var e := PrunedKind(reg, k, j);
            PrunedKind(again, k, e) == e && PruneKind(again, k, PrunedKind(again, k, j), e) == e && PruneKind(again, k, PrunedKind(again, k, e), j) == e
            && PrunedKind(again, k, j) == e
  {
    LeafAlike(reg, again, k, ZeroJson(k), j);
    match k
    case KAnyMap => if j.Obj? { Sums(j.members, j.members); }
    case KTextMap =>
      if j.Obj? {
        Sums(Blanked(j.members), Blanked(j.members));
        assert Blanked(Blanked(j.members)) == Blanked(j.members);
      }
    case _ =>
  }

  /** The same for a value of any kind. */
  lemma {:induction false} KindAgain(reg: Registry, again: Registry, k: Kind, j: Json)
    requires again.types == reg.types && Readable(reg.types, k, j) && FewSpellingsIn(reg, k, j)
    ensures var e := PrunedKind(reg, k, j);
            && (PrunedKind(again, k, e) == e <==> StableIn(reg, again, k, j))
            && (PruneKind(again, k, PrunedKind(again, k, j), e) == e <==> StableAfterItself(reg, again, k, j))
            && (PruneKind(again, k, PrunedKind(again, k, e), j) == e <==> PrunedKind(again, k, j) == e)
    decreases j, 6
  {
    hide PruneStruct;
    if j.Null? {
      ZeroAgain(again, k);
      NullStable(reg, again, k);
    } else {
      match k
      case KInline(s) => StructAgain(reg, again, s, j); StructObject(again, s, j);
      case KPointer(t) => StructAgain(reg, again, reg.types(t), j); StructObject(again, reg.types(t), j); StructObject(again, reg.types(t), PrunedKind(reg, k, j));
      case KSlice(t) => SliceAgain(reg, again, t, j);
      case _ => LeafAgain(reg, again, k, j);
    }
  }

  lemma StructObject(reg: Registry, s: Struct, j: Json)
    ensures Pruned(reg, s, j).Obj?
  {
    hide Survives, Entry;
  }

  // ----- main results -----

  /** Decoding and encoding a second time, in whatever order, always succeeds, and changes nothing exactly
      when the document is stable. */
  lemma IdempotentIffStable(reg: Registry, again: Registry, s: Struct, d: Json)
    requires again.types == reg.types && DecodeStruct(reg, s, d).Some? && FewSpellings(reg, s, d)
    ensures var e := Encode(DecodeStruct(reg, s, d).value);
            DecodeStruct(again, s, e).Some? && (Encode(DecodeStruct(again, s, e).value) == e <==> Stable(reg, again, s, d))
  {
    hide DecodeStruct, Encode, Pruned, Stable, FewSpellings, ReadableStruct;
    EncodeDecode(reg, s, d);
    DecodeIsRead(reg, s, d);
    DecodesIffReadable(reg, s, ZeroStruct(s), d);
    StructAgain(reg, again, s, d);
    ReencodedDecodes(reg, again, s, d);
    EncodeDecode(again, s, Encode(DecodeStruct(reg, s, d).value));
  }

  /** An object with a kept case variant has an Extra, so marshalWithExtra writes it as a map, and encoding/json
      sorts the keys of a map: this is the order every second pass reads. */
  const SORTED: Order := (o, k, f) => Strings.Below(f, k)

  /** What the code does with a document of the wire model, whatever order its text has. */
  lemma ModelIdempotentIffStable(t: TypeName, late: Order, d: Json)
    requires DecodeStruct(Registry(RiftModel.Model, late), RiftModel.Model(t), d).Some?
    requires FewSpellings(Registry(RiftModel.Model, late), RiftModel.Model(t), d)
    ensures var reg, again, s := Registry(RiftModel.Model, late), Registry(RiftModel.Model, SORTED), RiftModel.Model(t);
            var e := Encode(DecodeStruct(reg, s, d).value);
            DecodeStruct(again, s, e).Some? && (Encode(DecodeStruct(again, s, e).value) == e <==> Stable(reg, again, s, d))
  {
    hide RiftModel.Model, RiftModel.Decls, DecodeStruct, Encode, Stable, FewSpellings;
    IdempotentIffStable(Registry(RiftModel.Model, late), Registry(RiftModel.Model, SORTED), RiftModel.Model(t), d);
  }

  // ----- documents without a doubly spelled key -----

  /** Every declared key of every object read into a struct is spelled in at most one way. */
  ghost predicate SpelledOnce(reg: Registry, s: Struct, d: Json)
    decreases d, 1
  {
    d.Obj? ==> forall f :: f in s.fields ==> SpelledOnceOf(reg, s, d.members, f)
  }

  ghost predicate SpelledOnceOf(reg: Registry, s: Struct, o: map<string, Json>, f: string)
    requires f in s.fields
    decreases Obj(o), 0
  {
    && (forall j, k | j in o && k in o :: (j == f || IsVariant(s.fields.Keys, j, f)) && (k == f || IsVariant(s.fields.Keys, k, f)) ==> j == k)
    && (forall n :: n in o && (n == f || IsVariant(s.fields.Keys, n, f)) ==> SpelledOnceIn(reg, s.fields[f].kind, o[n]))
  }

  ghost predicate SpelledOnceIn(reg: Registry, k: Kind, d: Json)
    decreases d, 2
  {
    match k
    case KInline(s) => SpelledOnce(reg, s, d)
    case KPointer(t) => SpelledOnce(reg, reg.types(t), d)
    case KSlice(t) => d.Arr? ==> forall i :: 0 <= i < |d.items| ==> SpelledOnce(reg, reg.types(t), d.items[i])
    case _ => true
  }

  /** The order of members makes no difference to such a document. */
  lemma {:induction false} OrderFreeKind(reg: Registry, again: Registry, k: Kind, was: Json, j: Json)
    requires again.types == reg.types && SpelledOnceIn(reg, k, j)
    ensures PruneKind(reg, k, was, j) == PruneKind(again, k, was, j)
    decreases j, 3
  {
    if !j.Null? {
      hide PruneStruct;
      match k
      case KInline(s) => OrderFree(reg, again, s, was, j);
      case KPointer(t) => OrderFree(reg, again, reg.types(t), if was.Obj? then was else ZeroObject(reg.types(t)), j);
      case KSlice(t) =>
        if j.Arr? {
          forall n | 0 <= n < |j.items| ensures Pruned(reg, reg.types(t), j.items[n]) == Pruned(again, reg.types(t), j.items[n]) {
            OrderFree(reg, again, reg.types(t), ZeroObject(reg.types(t)), j.items[n]);
          }
          hide Pruned;
          assert PruneKind(reg, k, was, j).items == PruneKind(again, k, was, j).items;
        }
      case _ =>
    }
  }

  lemma {:induction false} OrderFreeEntry(reg: Registry, again: Registry, s: Struct, was: Json, o: map<string, Json>, f: string)
    requires again.types == reg.types && f in s.fields && SpelledOnceOf(reg, s, o, f)
    ensures Entry(reg, s, was, o, f) == Entry(again, s, was, o, f)
    decreases Obj(o), 1
  {
    var kind, h := s.fields[f].kind, Held(s, StartJson(s, was), f);
    if k :| k in o && IsVariant(s.fields.Keys, k, f) {
      OneVariantEntry(reg, s, was, o, f, k);
      OneVariantEntry(again, s, was, o, f, k);
      OrderFreeKind(reg, again, kind, h, o[k]);
    } else {
      SoleEntry(reg, s, was, o, f);
      SoleEntry(again, s, was, o, f);
      if f in o { OrderFreeKind(reg, again, kind, h, o[f]); }
    }
    hide PruneKind, Entry, Spellings, Held, SpelledOnceIn;
  }

  lemma {:induction false} OrderFree(reg: Registry, again: Registry, s: Struct, was: Json, j: Json)
    requires again.types == reg.types && SpelledOnce(reg, s, j)
    ensures PruneStruct(reg, s, was, j) == PruneStruct(again, s, was, j)
    decreases j, 2
  {
    if j.Obj? {
      var o := j.members;
      forall f | f in s.fields ensures Entry(reg, s, was, o, f) == Entry(again, s, was, o, f) { OrderFreeEntry(reg, again, s, was, o, f); }
      SameEntries(reg, again, s, was, was, o);
    } else {
      hide Entry, Survives;
    }
  }

  lemma {:induction false} SpelledOnceStableIn(reg: Registry, again: Registry, k: Kind, d: Json)
    requires again.types == reg.types && Readable(reg.types, k, d) && SpelledOnceIn(reg, k, d)
    ensures StableIn(reg, again, k, d) && StableAfterItself(reg, again, k, d) && FewSpellingsIn(reg, k, d)
    decreases d, 4
  {
    if !d.Null? {
      match k
      case KInline(s) => SpelledOnceStable(reg, again, s, d);
      case KPointer(t) => SpelledOnceStable(reg, again, reg.types(t), d);
      case KSlice(t) =>
        forall i | 0 <= i < |d.items| ensures Stable(reg, again, reg.types(t), d.items[i]) && FewSpellings(reg, reg.types(t), d.items[i]) {
          SpelledOnceStable(reg, again, reg.types(t), d.items[i]);
        }
      case _ =>
    } else {
      NullStable(reg, again, k);
    }
  }

  /** The one spelling is a case variant k. */
  lemma {:induction false} OnlyVariantStable(reg: Registry, again: Registry, s: Struct, o: map<string, Json>, f: string, k: string)
    requires again.types == reg.types && f in s.fields && ReadableField(reg.types, s, o, f) && SpelledOnceOf(reg, s, o, f)
    requires k in o && IsVariant(s.fields.Keys, k, f)
    requires StableAfterItself(reg, again, s.fields[f].kind, o[k])
    requires !s.open ==> StableIn(reg, again, s.fields[f].kind, o[k])
    ensures StableField(reg, again, s, o, f)
  {
    var kind := s.fields[f].kind;
    HeldZero(s, f);
    LastReadIs(reg, s, o, f);
    OneVariantEntry(reg, s, ZeroObject(s), o, f, k);
    OrderFreeKind(reg, again, kind, ZeroJson(kind), o[k]);
    SoleAddsNothing(reg, again, kind, o[k]);
    VacantPruned(reg, kind, o[k]);
    hide PruneKind, PruneStruct, Entry, Vacant, ZeroJson, StableIn, StableAfterItself, Readable, Spellings, LastRead, AddsNothing, SpelledOnceIn;
  }

  lemma {:induction false} SpelledOnceStableField(reg: Registry, again: Registry, s: Struct, o: map<string, Json>, f: string)
    requires again.types == reg.types && f in s.fields && ReadableField(reg.types, s, o, f) && SpelledOnceOf(reg, s, o, f)
    ensures StableField(reg, again, s, o, f) && ClosedFieldStableAfterItself(reg, again, s, o, f) && FewSpellingsOf(reg, s, o, f)
    decreases Obj(o), 2
  {
    var kind := s.fields[f].kind;
    forall n | n in o && (n == f || IsVariant(s.fields.Keys, n, f))
      ensures StableIn(reg, again, kind, o[n]) && StableAfterItself(reg, again, kind, o[n]) && FewSpellingsIn(reg, kind, o[n])
    {
      SpelledOnceStableIn(reg, again, kind, o[n]);
    }
    LastReadIs(reg, s, o, f);
    OrderFreeEntry(reg, again, s, ZeroObject(s), o, f);
    hide PruneKind, PruneStruct, Entry, Vacant, ZeroJson, StableIn, StableAfterItself, Readable, Spellings, LastRead, AddsNothing, FewSpellingsIn,
      SpelledOnceIn;
    if k :| k in o && IsVariant(s.fields.Keys, k, f) {
      OnlyVariantStable(reg, again, s, o, f, k);
      hide StableField;
    }
  }

  /** Such a document is stable in every order, so a second pass never changes what the first one wrote. */
  lemma {:induction false} SpelledOnceStable(reg: Registry, again: Registry, s: Struct, d: Json)
    requires again.types == reg.types && ReadableStruct(reg.types, s, d) && SpelledOnce(reg, s, d)
    ensures Stable(reg, again, s, d) && ClosedStableAfterItself(reg, again, s, d) && FewSpellings(reg, s, d)
    decreases d, 3
  {
    if d.Obj? {
      hide StableField, ClosedFieldStableAfterItself, FewSpellingsOf, ReadableField, SpelledOnceOf;
      forall f | f in s.fields
        ensures StableField(reg, again, s, d.members, f) && ClosedFieldStableAfterItself(reg, again, s, d.members, f) && FewSpellingsOf(reg, s, d.members, f)
      {
        SpelledOnceStableField(reg, again, s, d.members, f);
      }
    }
  }
}
