/** The DSL-expressibility gate of the conformance suite, as a statement about all documents. */
module Conformance {
  import opened Json
  import opened Schema
  import opened Codec
  import opened Prune
  import opened Trees
  import Idempotence

  /** A key that carries its engine default. */
  predicate IsDefault(key: string, val: Json) {
    if key == "protocol" then val == Str("http")
    else if key in {"recordRequests", "recordMatches", "allowCORS", "mutualAuth", "rejectUnauthorized", "strictBehaviors"} then val == Bool(false)
    else false
  }

  predicate Dropped(key: string, val: Json) { val.Null? || IsDefault(key, val) }

  /** The document up to the equivalences the replay contract permits. */
  function Normalised(v: Json): Json {
    match v
    case Obj(m) => Obj(map k | k in m && !Dropped(k, m[k]) :: Normalised(m[k]))
    case Arr(xs) => Arr(seq(|xs|, i requires 0 <= i < |xs| => Normalised(xs[i])))
    case _ => v
  }

  /** normalise, in place: deletes entries of the document's own maps, or descends. */
  method Normalise(t: Tree, ghost sh: Shape, ghost v: Json) returns (ghost sh': Shape)
    requires Unshared(sh) && Denotes(t, sh, v)
    modifies Refs(sh)
    ensures Unshared(sh') && Refs(sh') == Refs(sh) && Denotes(t, sh', Normalised(v))
    decreases sh
  {
    match t
    case Object(o) => sh' := NormaliseObject(o, sh, v);
    case Array(a) => sh' := NormaliseArray(a, sh, v);
    case Leaf(_) => sh' := sh;
  }

  method NormaliseObject(o: ObjectNode, ghost sh: Shape, ghost v: Json) returns (ghost sh': Shape)
    requires Unshared(sh) && Denotes(Object(o), sh, v)
    modifies Refs(sh)
    ensures Unshared(sh') && Refs(sh') == Refs(sh) && Denotes(Object(o), sh', Normalised(v))
    decreases sh, 1
  {
    hide Denotes, Unshared, Normalised, IsDefault, Dropped;
    DenotesKind(Object(o), sh, v);
    ghost var now := v.members;
    OpenObject(Object(o), sh, now);
    sh' := sh;
    var todo := o.m.Keys;
    while todo != {}
      invariant todo <= v.members.Keys
      invariant Unshared(sh') && Refs(sh') == Refs(sh) && Denotes(Object(o), sh', Obj(now))
      invariant sh'.ObjectAt? && forall k :: k in todo ==> k in sh'.members && k in sh.members && sh'.members[k] == sh.members[k]
      invariant forall k :: k in now <==> k in todo || (k in v.members && !Dropped(k, v.members[k]))
      invariant forall k :: k in now ==> k in v.members && now[k] == if k in todo then v.members[k] else Normalised(v.members[k])
      decreases todo
    {
      var k :| k in todo;
      var gone;
      gone, sh' := NormaliseMember(o, k, sh', now, sh);
      now := if gone then now - {k} else now[k := Normalised(now[k])];
      todo := todo - {k};
    }
    NormalisedMembers(v);
    assert now == Normalised(v).members;
  }

  lemma NormalisedMembers(v: Json)
    ensures v.Obj? ==> Normalised(v).Obj? && Normalised(v).members.Keys == set k | k in v.members && !Dropped(k, v.members[k])
    ensures v.Obj? ==> forall k :: k in Normalised(v).members ==> Normalised(v).members[k] == Normalised(v.members[k])
    ensures v.Arr? ==> Normalised(v).Arr? && |Normalised(v).items| == |v.items|
    ensures v.Arr? ==> forall i :: 0 <= i < |v.items| ==> Normalised(v).items[i] == Normalised(v.items[i])
  {
  }

  /** One round of the loop over an object. */
  method NormaliseMember(o: ObjectNode, k: string, ghost sh: Shape, ghost now: map<string, Json>, ghost outer: Shape)
    returns (gone: bool, ghost sh': Shape)
    requires Unshared(sh) && Denotes(Object(o), sh, Obj(now)) && k in now
    requires sh.ObjectAt? && outer.ObjectAt? && k in sh.members && k in outer.members && sh.members[k] == outer.members[k]
    modifies Refs(sh)
    ensures gone <==> Dropped(k, now[k])
    ensures sh'.ObjectAt? && forall j :: j in sh.members && j != k ==> j in sh'.members && sh'.members[j] == sh.members[j]
    ensures Unshared(sh') && Refs(sh') == Refs(sh)
    ensures Denotes(Object(o), sh', Obj(if gone then now - {k} else now[k := Normalised(now[k])]))
    decreases outer, 0
  {
    hide Denotes, Normalised;
    OpenObject(Object(o), sh, now);
    var val := o.m[k];
    DenotesKind(val, sh.members[k], now[k]);
    gone := val.Leaf? && (val.j.Null? || IsDefault(k, val.j));
    if gone {
      DeleteMember(o, k, sh, now);
      sh' := WithoutMember(sh, k);
    } else {
      ghost var kid := Normalise(val, sh.members[k], now[k]);
      RewrittenDenotes(sh, k, kid, now, Normalised(now[k]));
      sh' := WithMember(sh, k, kid);
    }
  }

  method NormaliseArray(a: array<Tree>, ghost sh: Shape, ghost v: Json) returns (ghost sh': Shape)
    requires Unshared(sh) && Denotes(Array(a), sh, v)
    modifies Refs(sh)
    ensures Unshared(sh') && Refs(sh') == Refs(sh) && Denotes(Array(a), sh', Normalised(v))
    decreases sh, 1
  {
    hide Normalised;
    sh' := sh;
    for i := 0 to a.Length
      invariant sh'.ArrayAt? && sh'.a == a && |sh'.items| == a.Length && sh'.refs == sh.refs
      invariant Unshared(sh')
      invariant forall n :: i <= n < a.Length ==> sh'.items[n] == sh.items[n]
      invariant forall n :: 0 <= n < a.Length ==> Denotes(a[n], sh'.items[n], if n < i then Normalised(v.items[n]) else v.items[n])
    {
      ghost var kid := Normalise(a[i], sh'.items[i], v.items[i]);
      NarrowedUnshared(sh', kid);
      sh' := WithItem(sh', i, kid);
    }
    NormalisedMembers(v);
  }

  /** The seven entries that are dropped beside null ones, and no other; what stays is normalised inside. */
  lemma DroppedEntries(m: map<string, Json>, k: string)
    requires k in m
    ensures var gone :=
              || m[k] == Null
              || (k == "protocol" && m[k] == Str("http"))
              || (m[k] == Bool(false) &&
                    (k == "recordRequests" || k == "recordMatches" || k == "allowCORS" || k == "mutualAuth"
                     || k == "rejectUnauthorized" || k == "strictBehaviors"));
            var n := Normalised(Obj(m));
            n.Obj? && (k in n.members <==> !gone) && (!gone ==> n.members[k] == Normalised(m[k]))
  {
    NormalisedMembers(Obj(m));
    hide Normalised;
  }

  /** What is left of one key of an object after normalising. */
  function Left(m: map<string, Json>, k: string): Option<Json> {
    if k in m && !Dropped(k, m[k]) then Some(Normalised(m[k])) else None
  }

  lemma SameObject(m: map<string, Json>, n: map<string, Json>)
    ensures Normalised(Obj(m)) == Normalised(Obj(n)) <==> forall k :: Left(m, k) == Left(n, k)
  {
    var a, b := Normalised(Obj(m)).members, Normalised(Obj(n)).members;
    assert forall k :: Left(m, k) == if k in a then Some(a[k]) else None;
    assert forall k :: Left(n, k) == if k in b then Some(b[k]) else None;
    if forall k :: Left(m, k) == Left(n, k) {
      forall k: string ensures k in a <==> k in b ensures k in a ==> a[k] == b[k] {
        assert Left(m, k) == Left(n, k);
      }
      assert a == b;
    }
  }

  /** The value that is read last settles what the field comes to, whatever was read before. */
  predicate Settles(reg: Registry, k: Kind, last: Json) {
    !Idempotence.FillsStruct(reg, k) && !k.KAnyMap? && !k.KTextMap? && (KeepsOnNull(k) ==> !last.Null?)
  }

  /** The key's own spelling is read last. */
  ghost predicate OwnIsLast(reg: Registry, s: Struct, o: map<string, Json>, f: string) {
    var keys := Spellings(reg, s.fields.Keys, o, f);
    keys != [] && keys[|keys| - 1] == f
  }

  lemma {:induction false} LastMember(reg: Registry, k: Kind, was: Json, o: map<string, Json>, keys: seq<string>)
    requires keys != [] && (forall n :: n in keys ==> n in o) && Settles(reg, k, o[keys[|keys| - 1]])
    ensures PruneMembers(reg, k, was, o, keys) == PrunedKind(reg, k, o[keys[|keys| - 1]])
    decreases |keys|
  {
    var next := PruneKind(reg, k, was, o[keys[0]]);
    if |keys| == 1 {
      if !KeepsOnNull(k) { Idempotence.OverwritesAll(reg, k, was, o[keys[0]]); }
      assert PruneMembers(reg, k, next, o, keys[1..]) == next;
    } else {
      LastMember(reg, k, next, o, keys[1..]);
    }
    hide PruneStruct;
  }

  lemma LastSettles(reg: Registry, s: Struct, o: map<string, Json>, f: string)
    requires f in s.fields && Respelled(s, o, f)
    ensures var last := Idempotence.LastRead(reg, s, o, f);
            && (Settles(reg, s.fields[f].kind, last) ==> Entry(reg, s, ZeroObject(s), o, f) == PrunedKind(reg, s.fields[f].kind, last))
            && (OwnIsLast(reg, s, o, f) ==> f in o && last == o[f])
  {
    var keys, kind := Spellings(reg, s.fields.Keys, o, f), s.fields[f].kind;
    var k :| k in o && IsVariant(s.fields.Keys, k, f);
    assert k in keys;
    hide PruneMembers, PruneKind, Settles, Spellings, Held, IsVariant;
    if Settles(reg, kind, o[keys[|keys| - 1]]) {
      LastMember(reg, kind, Held(s, StartJson(s, ZeroObject(s)), f), o, keys);
    }
  }

  /** One key of an object survives the codec, up to normalisation. */
  ghost predicate KeyFaithful(reg: Registry, s: Struct, o: map<string, Json>, k: string)
    requires k in o || k in s.fields
    decreases Obj(o), 0, 0
  {
    if k !in s.fields then
      // a closed struct drops unknown keys, so they must be null or a default
      s.open || Dropped(k, o[k])
    else
      var f := s.fields[k];
      var last := Idempotence.LastRead(reg, s, o, k);
      if Respelled(s, o, k) && !Settles(reg, f.kind, last) then
        // maps are unions of all spellings, closed structs are filled by each, null leaves scalars alone
        SaysTheSame(k, f, Entry(reg, s, ZeroObject(s), o, k), if k in o then o[k] else Null)
      else if Respelled(s, o, k) && !OwnIsLast(reg, s, o, k) then
        // a case variant is read last: it must say what the key's own value says
        SaysTheSame(k, f, PrunedKind(reg, f.kind, last), if k in o then o[k] else Null)
      else if k in o && !o[k].Null? then
        // an optional empty value must be a listed default; anything else must be faithful inside
        IsDefault(k, o[k]) || (!(f.omitEmpty && Vacant(f.kind, o[k])) && FaithfulIn(reg, f.kind, o[k]))
      else
        // absent or null: optional, or mandatory with a null zero value
        (f.omitEmpty && !f.kind.KInline?) || Dropped(k, ZeroJson(f.kind))
  }

  /** Writing e for field k is, up to normalisation, what the document has there; null stands for nothing. */
  predicate SaysTheSame(k: string, f: Field, e: Json, own: Json) {
    if Dropped(k, own) then Dropped(k, e) || (f.omitEmpty && Vacant(f.kind, e))
    else !Dropped(k, e) && !(f.omitEmpty && Vacant(f.kind, e)) && Normalised(e) == Normalised(own)
  }

  /** The condition a document must meet to pass the gate, read off the document and the types. */
  ghost predicate Faithful(reg: Registry, s: Struct, d: Json)
    decreases d, 0, 1
  {
    d.Obj? && forall k :: k in d.members.Keys + s.fields.Keys ==> KeyFaithful(reg, s, d.members, k)
  }

  ghost predicate FaithfulIn(reg: Registry, k: Kind, d: Json)
    decreases d, 1
  {
    match k
    case KTextMap => d.Obj? ==> forall n :: n in d.members ==> !d.members[n].Null?
    case KInline(s) => Faithful(reg, s, d)
    case KPointer(t) => Faithful(reg, reg.types(t), d)
    case KSlice(t) => d.Arr? ==> forall i :: 0 <= i < |d.items| ==> Faithful(reg, reg.types(t), d.items[i])
    case _ => true
  }

  lemma {:induction false} KindGate(reg: Registry, k: Kind, d: Json)
    requires Readable(reg.types, k, d) && !d.Null?
    ensures Normalised(PrunedKind(reg, k, d)) == Normalised(d) <==> FaithfulIn(reg, k, d)
    ensures d.Str? || d.Bool? ==> PrunedKind(reg, k, d) == d
    ensures !PrunedKind(reg, k, d).Null? && (d.Obj? || d.Arr? ==> PrunedKind(reg, k, d).Obj? || PrunedKind(reg, k, d).Arr?)
    decreases d, 1
  {
    match k
    case KTextMap =>
      var p := PrunedKind(reg, k, d);
      SameObject(p.members, d.members);
      assert p.members == Blanked(d.members);
      if n :| n in d.members && d.members[n].Null? {
        assert Left(p.members, n) != Left(d.members, n);
      } else {
        assert p.members == d.members;
      }
    case KAnyMap => assert map[] + d.members == d.members;
    case KInline(s) => Gate(reg, s, d);
    case KPointer(t) => Gate(reg, reg.types(t), d);
    case KSlice(t) =>
      forall i | 0 <= i < |d.items|
        ensures Normalised(Pruned(reg, reg.types(t), d.items[i])) == Normalised(d.items[i]) <==> Faithful(reg, reg.types(t), d.items[i])
      {
        Gate(reg, reg.types(t), d.items[i]);
      }
      SameArray(PrunedKind(reg, k, d).items, d.items);
    case _ =>
  }

  lemma SameArray(xs: seq<Json>, ys: seq<Json>)
    requires |xs| == |ys|
    ensures Normalised(Arr(xs)) == Normalised(Arr(ys)) <==> forall i :: 0 <= i < |xs| ==> Normalised(xs[i]) == Normalised(ys[i])
  {
    var a, b := Normalised(Arr(xs)).items, Normalised(Arr(ys)).items;
    if forall i :: 0 <= i < |xs| ==> Normalised(xs[i]) == Normalised(ys[i]) {
      assert a == b;
    }
    if i :| 0 <= i < |xs| && Normalised(xs[i]) != Normalised(ys[i]) {
      assert a[i] != b[i];
    }
  }

  /** What the re-encoded object leaves of one key. */
  lemma LeftOfPruned(reg: Registry, s: Struct, o: map<string, Json>, k: string)
    ensures Pruned(reg, s, Obj(o)).Obj?
    ensures k in s.fields ==>
              var f, e := s.fields[k], Entry(reg, s, ZeroObject(s), o, k);
              Left(Pruned(reg, s, Obj(o)).members, k) ==
              if (f.omitEmpty && Vacant(f.kind, e)) || Dropped(k, e) then None else Some(Normalised(e))
    ensures k !in s.fields ==> Left(Pruned(reg, s, Obj(o)).members, k) == if s.open then Left(o, k) else None
  {
    PrunedMember(reg, s, ZeroObject(s), o, k);
    hide Entry, Vacant, PruneStruct, Normalised, Dropped;
  }

  /** A declared key that is not spelled in any other way. */
  lemma SoleComes(reg: Registry, s: Struct, o: map<string, Json>, k: string)
    requires k in s.fields && !Respelled(s, o, k)
    ensures Entry(reg, s, ZeroObject(s), o, k) == PrunedKind(reg, s.fields[k].kind, if k in o then o[k] else Null)
  {
    HeldZero(s, k);
    SoleEntry(reg, s, ZeroObject(s), o, k);
    hide PruneStruct, Entry, Respelled, ZeroJson;
  }

  /** The field comes to what its own key says alone. */
  lemma {:induction false} OwnKeyGate(reg: Registry, s: Struct, o: map<string, Json>, k: string)
    requires ReadableStruct(reg.types, s, Obj(o)) && k in s.fields
    requires !Respelled(s, o, k) || (Settles(reg, s.fields[k].kind, Idempotence.LastRead(reg, s, o, k)) && OwnIsLast(reg, s, o, k))
    requires Entry(reg, s, ZeroObject(s), o, k) == PrunedKind(reg, s.fields[k].kind, if k in o then o[k] else Null)
    ensures var f, e := s.fields[k], Entry(reg, s, ZeroObject(s), o, k);
            (if (f.omitEmpty && Vacant(f.kind, e)) || Dropped(k, e) then None else Some(Normalised(e))) == Left(o, k) <==>
            KeyFaithful(reg, s, o, k)
    decreases Obj(o), 0, 0, 0
  {
    EncodeZero(s.fields[k].kind);
    hide PruneKind, Entry, Respelled, ZeroJson, Settles, OwnIsLast, Idempotence.LastRead;
    if k in o && !o[k].Null? {
      assert ReadableField(reg.types, s, o, k);
      KindGate(reg, s.fields[k].kind, o[k]);
      VacantPruned(reg, s.fields[k].kind, o[k]);
      hide Vacant, Readable, FaithfulIn, ReadableField;
    }
  }

  lemma {:induction false} KeyGate(reg: Registry, s: Struct, o: map<string, Json>, k: string)
    requires ReadableStruct(reg.types, s, Obj(o))
    ensures Pruned(reg, s, Obj(o)).Obj?
    ensures Left(Pruned(reg, s, Obj(o)).members, k) == Left(o, k) <==> ((k in o || k in s.fields) ==> KeyFaithful(reg, s, o, k))
    decreases Obj(o), 0, 0
  {
    LeftOfPruned(reg, s, o, k);
    if k in s.fields {
      if Respelled(s, o, k) { LastSettles(reg, s, o, k); } else { SoleComes(reg, s, o, k); }
      if !Respelled(s, o, k) || (Settles(reg, s.fields[k].kind, Idempotence.LastRead(reg, s, o, k)) && OwnIsLast(reg, s, o, k)) {
        OwnKeyGate(reg, s, o, k);
      }
    }
    hide PruneKind, Vacant, Entry, Pruned, Readable, FaithfulIn, Normalised, Respelled, Settles, OwnIsLast, Idempotence.LastRead;
  }

  /** The gate, for every document that decodes: re-encoding is faithful up to the permitted
      normalisations exactly when the document meets the condition above. */
  lemma {:induction false} Gate(reg: Registry, s: Struct, d: Json)
    requires ReadableStruct(reg.types, s, d)
    ensures Normalised(Pruned(reg, s, d)) == Normalised(d) <==> Faithful(reg, s, d)
    ensures d.Obj? ==> Pruned(reg, s, d).Obj?
    decreases d, 0, 1
  {
    if d.Obj? {
      var p := Pruned(reg, s, d);
      forall k: string
        ensures p.Obj? && Left(p.members, k) == Left(d.members, k) <==> ((k in d.members || k in s.fields) ==> KeyFaithful(reg, s, d.members, k))
      {
        KeyGate(reg, s, d.members, k);
      }
      KeyGate(reg, s, d.members, "");
      SameObject(p.members, d.members);
    }
  }

  lemma ConformanceGate(reg: Registry, s: Struct, d: Json)
    requires DecodeStruct(reg, s, d).Some?
    ensures Normalised(Encode(DecodeStruct(reg, s, d).value)) == Normalised(d) <==> Faithful(reg, s, d)
  {
    hide ReadStruct, PruneStruct;
    EncodeDecode(reg, s, d);
    DecodesIffReadable(reg, s, ZeroStruct(s), d);
    Gate(reg, s, d);
  }
}
