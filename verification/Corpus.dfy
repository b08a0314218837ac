/** absolutise: corpus-relative file references become absolute paths. Unix path rules; clean
    stands for filepath.Clean, which keeps a rooted path rooted. */
module Corpus {
  import opened Json
  import opened Trees

  const PREFIXES: seq<string> := ["data/", "fixtures/"]

  predicate Rooted(p: string) { |p| > 0 && p[0] == '/' }

  ghost predicate KeepsRoot(clean: string -> string) { forall p: string :: Rooted(p) ==> Rooted(clean(p)) }

  predicate IsReference(t: string) { "data/" <= t || "fixtures/" <= t }

  function Join(clean: string -> string, dir: string, t: string): string { clean(dir + "/" + t) }

  function Absolutised(v: Json, dir: string, clean: string -> string): Json {
    match v
    case Obj(m) => Obj(map k | k in m :: Absolutised(m[k], dir, clean))
    case Arr(xs) => Arr(seq(|xs|, i requires 0 <= i < |xs| => Absolutised(xs[i], dir, clean)))
    case Str(t) => if IsReference(t) then Str(Join(clean, dir, t)) else v
    case _ => v
  }

  /** absolutise, in place: the document keeps its maps and slices. */
  method Absolutise(t: Tree, dir: string, clean: string -> string, ghost sh: Shape, ghost v: Json) returns (r: Tree)
    requires Unshared(sh) && Denotes(t, sh, v)
    modifies Refs(sh)
    ensures Denotes(r, sh, Absolutised(v, dir, clean))
    decreases sh
  {
    match t
    case Object(o) => AbsolutiseObject(o, dir, clean, sh, v); r := t;
    case Array(a) => AbsolutiseArray(a, dir, clean, sh, v); r := t;
    case Leaf(j) =>
      r := t;
      if j.Str? {
        for i := 0 to |PREFIXES|
          invariant forall n :: 0 <= n < i ==> !(PREFIXES[n] <= j.s)
        {
          if PREFIXES[i] <= j.s {
            return Leaf(Str(Join(clean, dir, j.s)));
          }
        }
        assert !(PREFIXES[0] <= j.s) && !(PREFIXES[1] <= j.s);
      }
  }

  method AbsolutiseObject(o: ObjectNode, dir: string, clean: string -> string, ghost sh: Shape, ghost v: Json)
    requires Unshared(sh) && Denotes(Object(o), sh, v)
    modifies Refs(sh)
    ensures Denotes(Object(o), sh, Absolutised(v, dir, clean))
    decreases sh, 1
  {
    hide Denotes, Unshared, Absolutised;
    DenotesKind(Object(o), sh, v);
    ghost var now := v.members;
    OpenObject(Object(o), sh, now);
    var todo := o.m.Keys;
    while todo != {}
      invariant todo <= v.members.Keys && Denotes(Object(o), sh, Obj(now))
      invariant now.Keys == v.members.Keys
      invariant forall k :: k in now ==> now[k] == if k in todo then v.members[k] else Absolutised(v.members[k], dir, clean)
      decreases todo
    {
      var k :| k in todo;
      AbsolutiseMember(o, k, dir, clean, sh, now);
      now := now[k := Absolutised(now[k], dir, clean)];
      todo := todo - {k};
    }
    AbsolutisedObject(v, dir, clean);
    assert now == Absolutised(v, dir, clean).members;
  }

  method AbsolutiseMember(o: ObjectNode, k: string, dir: string, clean: string -> string, ghost sh: Shape, ghost now: map<string, Json>)
    requires Unshared(sh) && Denotes(Object(o), sh, Obj(now)) && k in now
    modifies Refs(sh)
    ensures Denotes(Object(o), sh, Obj(now[k := Absolutised(now[k], dir, clean)]))
    decreases sh, 0
  {
    hide Absolutised, Denotes;
    OpenObject(Object(o), sh, now);
    var a := Absolutise(o.m[k], dir, clean, sh.members[k], now[k]);
    assert OthersDenote(sh, now, k);
    SetMember(o, k, a, sh, now, Absolutised(now[k], dir, clean));
  }

  method AbsolutiseArray(a: array<Tree>, dir: string, clean: string -> string, ghost sh: Shape, ghost v: Json)
    requires Unshared(sh) && Denotes(Array(a), sh, v)
    modifies Refs(sh)
    ensures Denotes(Array(a), sh, Absolutised(v, dir, clean))
    decreases sh, 0
  {
    hide Absolutised;
    ghost var es := sh.items;
    for i := 0 to a.Length
      invariant forall n :: 0 <= n < |es| ==> Denotes(a[n], es[n], if n < i then Absolutised(v.items[n], dir, clean) else v.items[n])
    {
      var x := Absolutise(a[i], dir, clean, es[i], v.items[i]);
      a[i] := x;
    }
    AbsolutisedArray(v, dir, clean);
  }

  lemma AbsolutisedObject(v: Json, dir: string, clean: string -> string)
    ensures v.Obj? ==> Absolutised(v, dir, clean).Obj? && Absolutised(v, dir, clean).members.Keys == v.members.Keys
    ensures v.Obj? ==> forall k :: k in v.members ==> Absolutised(v, dir, clean).members[k] == Absolutised(v.members[k], dir, clean)
  {
  }

  lemma AbsolutisedArray(v: Json, dir: string, clean: string -> string)
    ensures v.Arr? ==> Absolutised(v, dir, clean).Arr? && |Absolutised(v, dir, clean).items| == |v.items|
    ensures v.Arr? ==> forall i :: 0 <= i < |v.items| ==> Absolutised(v, dir, clean).items[i] == Absolutised(v.items[i], dir, clean)
  {
  }

  /** Every path leads to the same place before and after: keys, array lengths and all leaves but
      strings are kept, and a string leaf changes exactly when it starts with a listed prefix: it becomes
      filepath.Join of the corpus directory and itself. */
  lemma {:induction false} ChangesReferencesOnly(v: Json, dir: string, clean: string -> string, path: seq<Step>)
    requires Rooted(dir) && KeepsRoot(clean)
    ensures At(v, path).Some? <==> At(Absolutised(v, dir, clean), path).Some?
    ensures At(v, path).Some? ==>
              var x, y := At(v, path).value, At(Absolutised(v, dir, clean), path).value;
              && (x.Obj? ==> y.Obj? && y.members.Keys == x.members.Keys)
              && (x.Arr? ==> y.Arr? && |y.items| == |x.items|)
              && (x.Str? ==> y.Str? && (y != x <==> "data/" <= x.s || "fixtures/" <= x.s) && (y != x ==> Rooted(y.s) && y.s == clean(dir + "/" + x.s)))
              && (!x.Obj? && !x.Arr? && !x.Str? ==> y == x)
    decreases |path|
  {
    if path == [] {
      if v.Str? && IsReference(v.s) {
        assert Rooted(dir + "/" + v.s);
        assert !Rooted(v.s);
      }
    } else {
      match path[0]
      case Key(k) => if v.Obj? && k in v.members { ChangesReferencesOnly(v.members[k], dir, clean, path[1..]); }
      case Index(i) => if v.Arr? && i < |v.items| { ChangesReferencesOnly(v.items[i], dir, clean, path[1..]); }
    }
  }

  // ----- which file a rewritten reference names -----

  /** A component of a clean path. */
  predicate Component(n: string) { n != "" && '/' !in n && n != "." && n != ".." }

  /** The rooted path with the given components. */
  function Slashed(names: seq<string>): string { if names == [] then "" else "/" + names[0] + Slashed(names[1..]) }

  ghost predicate Clean(p: string) { exists names: seq<string> :: names != [] && p == Slashed(names) && forall n :: n in names ==> Component(n) }

  /** filepath.Clean returns a rooted path that is clean as it is. */
  ghost predicate KeepsClean(clean: string -> string) { forall p: string :: Clean(p) ==> clean(p) == p }

  lemma {:induction false} SlashedConcat(a: seq<string>, b: seq<string>)
    ensures Slashed(a + b) == Slashed(a) + Slashed(b)
  {
    if a == [] {
      assert a + b == b;
    } else {
      assert (a + b)[1..] == a[1..] + b;
      SlashedConcat(a[1..], b);
    }
  }

  /** A clean reference becomes the path of the corpus directory followed by the reference, at any place of
      the document, so two references name different files. */
  lemma ReferencesNameTheirFiles(v: Json, dir: string, clean: string -> string, path: seq<Step>, other: seq<Step>)
    requires Clean(dir) && KeepsRoot(clean) && KeepsClean(clean)
    requires At(v, path).Some? && At(v, other).Some?
    requires var x, y := At(v, path).value, At(v, other).value; x.Str? && y.Str? && CleanReference(x.s) && CleanReference(y.s)
    ensures var a := Absolutised(v, dir, clean);
            && At(a, path) == Some(Str(dir + "/" + At(v, path).value.s))
            && (At(a, path) == At(a, other) <==> At(v, path) == At(v, other))
  {
    hide Absolutised, KeepsClean, KeepsRoot;
    var x, y := At(v, path).value.s, At(v, other).value.s;
    CleanIsRooted(dir);
    ChangesReferencesOnly(v, dir, clean, path);
    ChangesReferencesOnly(v, dir, clean, other);
    CleanJoin(clean, dir, x);
    CleanJoin(clean, dir, y);
    assert (dir + "/" + x)[|dir| + 1..] == x && (dir + "/" + y)[|dir| + 1..] == y;
  }

  ghost predicate CleanReference(t: string) { IsReference(t) && Clean("/" + t) }

  lemma CleanIsRooted(p: string)
    requires Clean(p)
    ensures Rooted(p)
  {
  }

  lemma CleanJoin(clean: string -> string, dir: string, t: string)
    requires Clean(dir) && Clean("/" + t) && KeepsClean(clean)
    ensures clean(dir + "/" + t) == dir + "/" + t
  {
    var a :| a != [] && dir == Slashed(a) && forall n :: n in a ==> Component(n);
    var b :| b != [] && "/" + t == Slashed(b) && forall n :: n in b ==> Component(n);
    SlashedConcat(a, b);
    assert dir + "/" + t == dir + ("/" + t) == Slashed(a + b);
    assert Clean(dir + "/" + t);
  }

  /** A second pass changes nothing, because locate makes the corpus directory absolute. */
  lemma {:induction false} AbsolutiseTwice(v: Json, dir: string, clean: string -> string)
    requires Rooted(dir) && KeepsRoot(clean)
    ensures Absolutised(Absolutised(v, dir, clean), dir, clean) == Absolutised(v, dir, clean)
  {
    var a := Absolutised(v, dir, clean);
    match v
    case Obj(m) =>
      forall k | k in m ensures Absolutised(a.members[k], dir, clean) == a.members[k] { AbsolutiseTwice(m[k], dir, clean); }
      assert Absolutised(a, dir, clean).members == a.members;
    case Arr(xs) =>
      forall i | 0 <= i < |xs| ensures Absolutised(a.items[i], dir, clean) == a.items[i] { AbsolutiseTwice(xs[i], dir, clean); }
      assert Absolutised(a, dir, clean).items == a.items;
    case Str(t) =>
      if IsReference(t) { assert Rooted(dir + "/" + t); }
    case _ =>
  }
}
