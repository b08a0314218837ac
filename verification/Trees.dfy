/** Decoded documents as Go holds them: maps and slices are references that can be written in place. */
module Trees {
  import opened Json

  /** An any value of a decoded document. */
  datatype Tree = Leaf(j: Json) | Object(o: ObjectNode) | Array(a: array<Tree>)

  /** A map[string]any. */
  class ObjectNode {
    var m: map<string, Tree>

    constructor (m: map<string, Tree>)
      ensures this.m == m
    {
      this.m := m;
    }
  }

  /** Which reference sits where in a document, and all references below each point. */
  datatype Shape =
    | NoRef
    | ObjectAt(o: ObjectNode, members: map<string, Shape>, refs: set<object>)
    | ArrayAt(a: array<Tree>, items: seq<Shape>, refs: set<object>)

  function Refs(sh: Shape): set<object> { if sh.NoRef? then {} else sh.refs }

  /** No reference occurs twice, as in every document json.Unmarshal makes. */
  ghost predicate Unshared(sh: Shape) {
    match sh
    case NoRef => true
    case ObjectAt(o, ms, refs) =>
      && o in refs
      && (forall k :: k in ms ==> Unshared(ms[k]) && Refs(ms[k]) <= refs - {o})
      && (forall j, k :: j in ms && k in ms && j != k ==> Refs(ms[j]) !! Refs(ms[k]))
    case ArrayAt(a, es, refs) =>
      && a in refs
      && (forall i :: 0 <= i < |es| ==> Unshared(es[i]) && Refs(es[i]) <= refs - {a})
      && (forall i, j :: 0 <= i < |es| && 0 <= j < |es| && i != j ==> Refs(es[i]) !! Refs(es[j]))
  }

  /** In the current heap t is the document v, held in the references of sh. */
  ghost predicate Denotes(t: Tree, sh: Shape, v: Json)
    requires Unshared(sh)
    reads Refs(sh)
    decreases sh
  {
    match sh
    case NoRef => t == Leaf(v) && !v.Obj? && !v.Arr?
    case ObjectAt(o, ms, _) =>
      && t == Object(o) && v.Obj? && o.m.Keys == ms.Keys == v.members.Keys
      && forall k :: k in ms ==> Denotes(o.m[k], ms[k], v.members[k])
    case ArrayAt(a, es, _) =>
      && t == Array(a) && v.Arr? && a.Length == |es| == |v.items|
      && forall i :: 0 <= i < |es| ==> Denotes(a[i], es[i], v.items[i])
  }

  /** Every member of the object but k is the one in now. */
  ghost predicate OthersDenote(sh: Shape, now: map<string, Json>, k: string)
    requires Unshared(sh)
    reads Refs(sh)
  {
    && sh.ObjectAt? && sh.o.m.Keys == sh.members.Keys == now.Keys && k in now
    && forall j :: j in sh.members && j != k ==> Denotes(sh.o.m[j], sh.members[j], now[j])
  }

  lemma DenotesKind(t: Tree, sh: Shape, v: Json)
    requires Unshared(sh) && Denotes(t, sh, v)
    ensures (t.Object? <==> v.Obj?) && (t.Array? <==> v.Arr?) && (t.Leaf? ==> t.j == v)
  {
  }

  lemma OpenObject(t: Tree, sh: Shape, now: map<string, Json>)
    requires Unshared(sh) && Denotes(t, sh, Obj(now))
    ensures sh.ObjectAt? && t == Object(sh.o) && sh.o.m.Keys == sh.members.Keys == now.Keys
    ensures forall k :: k in now ==> OthersDenote(sh, now, k) && Denotes(sh.o.m[k], sh.members[k], now[k])
  {
  }

  lemma CloseObject(sh: Shape, now: map<string, Json>, k: string)
    requires Unshared(sh) && OthersDenote(sh, now, k) && Denotes(sh.o.m[k], sh.members[k], now[k])
    ensures Denotes(Object(sh.o), sh, Obj(now))
  {
  }

  /** t[k] = x, once x stands where k's old value stood. */
  method SetMember(o: ObjectNode, k: string, t: Tree, ghost sh: Shape, ghost now: map<string, Json>, ghost x: Json)
    requires Unshared(sh) && OthersDenote(sh, now, k) && sh.o == o && Denotes(t, sh.members[k], x)
    modifies o
    ensures Denotes(Object(o), sh, Obj(now[k := x]))
  {
    hide Denotes;
    o.m := o.m[k := t];
    assert OthersDenote(sh, now[k := x], k);
    CloseObject(sh, now[k := x], k);
  }

  /** The shape once the references below k are those of kid. */
  function WithMember(sh: Shape, k: string, kid: Shape): Shape
    requires sh.ObjectAt?
  {
    sh.(members := sh.members[k := kid])
  }

  function WithoutMember(sh: Shape, k: string): Shape
    requires sh.ObjectAt?
  {
    sh.(members := sh.members - {k})
  }

  function WithItem(sh: Shape, i: nat, kid: Shape): Shape
    requires sh.ArrayAt? && i < |sh.items|
  {
    sh.(items := sh.items[i := kid])
  }

  lemma NarrowedUnshared(sh: Shape, kid: Shape)
    requires Unshared(sh) && Unshared(kid)
    ensures sh.ObjectAt? ==> forall k :: Unshared(WithoutMember(sh, k))
    ensures sh.ObjectAt? ==> forall k :: k in sh.members && Refs(kid) <= Refs(sh.members[k]) ==> Unshared(WithMember(sh, k, kid))
    ensures sh.ArrayAt? ==> forall i: nat :: i < |sh.items| && Refs(kid) <= Refs(sh.items[i]) ==> Unshared(WithItem(sh, i, kid))
  {
  }

  /** delete(t, k). */
  method DeleteMember(o: ObjectNode, k: string, ghost sh: Shape, ghost now: map<string, Json>)
    requires Unshared(sh) && Denotes(Object(o), sh, Obj(now)) && k in now
    modifies o
    ensures Unshared(WithoutMember(sh, k)) && Denotes(Object(o), WithoutMember(sh, k), Obj(now - {k}))
  {
    NarrowedUnshared(sh, NoRef);
    OpenObject(Object(o), sh, now);
    o.m := o.m - {k};
    DeletedDenotes(sh, k, now);
  }

  lemma DeletedDenotes(sh: Shape, k: string, now: map<string, Json>)
    requires Unshared(sh) && sh.ObjectAt? && Unshared(WithoutMember(sh, k)) && sh.members.Keys == now.Keys
    requires sh.o.m.Keys == sh.members.Keys - {k}
    requires forall j :: j in sh.members && j != k ==> Denotes(sh.o.m[j], sh.members[j], now[j])
    ensures Denotes(Object(sh.o), WithoutMember(sh, k), Obj(now - {k}))
  {
  }

  /** A member was rewritten in its own references. */
  lemma RewrittenDenotes(sh: Shape, k: string, kid: Shape, now: map<string, Json>, x: Json)
    requires Unshared(sh) && OthersDenote(sh, now, k) && Unshared(kid) && Refs(kid) <= Refs(sh.members[k])
    requires Denotes(sh.o.m[k], kid, x)
    ensures Unshared(WithMember(sh, k, kid)) && Denotes(Object(sh.o), WithMember(sh, k, kid), Obj(now[k := x]))
  {
    hide Denotes, Unshared;
    var wide := WithMember(sh, k, kid);
    assert Unshared(wide) by { NarrowedUnshared(sh, kid); }
    assert OthersDenote(wide, now[k := x], k);
    CloseObject(wide, now[k := x], k);
  }
}
