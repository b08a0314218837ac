/** firstDifference: the first divergence between two decoded documents, whatever order Go visits
    the keys of a map in. */
module TreeDiff {
  import opened Json

  datatype Reason = NotAnObject | Missing | Added | NotAnArray | Length | Leaf

  datatype Difference = Difference(path: seq<Step>, why: Reason)

  predicate IsLeaf(j: Json) { !j.Obj? && !j.Arr? }

  /** The documents really diverge at path, in the way reported. */
  ghost predicate Genuine(want: Json, got: Json, path: seq<Step>, why: Reason) {
    if why == Missing then |path| > 0 && HasKey(want, path) && LacksKey(got, path)
    else if why == Added then |path| > 0 && LacksKey(want, path) && HasKey(got, path)
    else At(want, path).Some? && At(got, path).Some? && Differs(At(want, path).value, At(got, path).value, why)
  }

  ghost predicate Differs(w: Json, g: Json, why: Reason) {
    if why == NotAnObject then w.Obj? && !g.Obj?
    else if why == NotAnArray then w.Arr? && !g.Arr?
    else if why == Length then w.Arr? && g.Arr? && |w.items| != |g.items|
    else IsLeaf(w) && w != g
  }

  ghost predicate HasKey(j: Json, path: seq<Step>)
    requires |path| > 0
  {
    var parent, last := At(j, path[..|path| - 1]), path[|path| - 1];
    last.Key? && parent.Some? && parent.value.Obj? && last.name in parent.value.members
  }

  ghost predicate LacksKey(j: Json, path: seq<Step>)
    requires |path| > 0
  {
    var parent, last := At(j, path[..|path| - 1]), path[|path| - 1];
    last.Key? && parent.Some? && parent.value.Obj? && last.name !in parent.value.members
  }

  /** A divergence inside a part is the same divergence inside the whole. */
  lemma Inside(want: Json, got: Json, step: Step, path: seq<Step>, why: Reason)
    requires At(want, [step]).Some? && At(got, [step]).Some?
    requires Genuine(At(want, [step]).value, At(got, [step]).value, path, why)
    ensures Genuine(want, got, [step] + path, why)
  {
    assert ([step] + path)[1..] == path;
    if |path| > 0 {
      var longer := [step] + path;
      assert longer[..|longer| - 1] == [step] + path[..|path| - 1];
      assert ([step] + path[..|path| - 1])[1..] == path[..|path| - 1];
      assert longer[|longer| - 1] == path[|path| - 1];
    }
  }

  /** No divergence on the way to path would have been reported before it: an array is entered only if the
      lengths agree, at its first differing element, and an added key is reported only if every wanted key is
      there with its value. The keys of an object have no order. */
  ghost predicate First(want: Json, got: Json, path: seq<Step>, why: Reason)
    decreases |path|
  {
    path == [] ||
    match path[0]
    case Index(i) =>
      && want.Arr? && got.Arr? && |want.items| == |got.items| && i < |want.items| && want.items[..i] == got.items[..i]
      && First(want.items[i], got.items[i], path[1..], why)
    case Key(k) =>
      && want.Obj? && got.Obj?
      && if |path| == 1 && (why.Missing? || why.Added?)
         then why.Added? ==> forall n :: n in want.members ==> n in got.members && got.members[n] == want.members[n]
         else k in want.members && k in got.members && First(want.members[k], got.members[k], path[1..], why)
  }

  /** A report made while visiting path names a genuine divergence below path, the first one there. */
  ghost predicate Reports(want: Json, got: Json, path: seq<Step>, d: Difference) {
    path <= d.path && Genuine(want, got, d.path[|path|..], d.why) && First(want, got, d.path[|path|..], d.why)
  }

  lemma ReportsHere(want: Json, got: Json, path: seq<Step>, why: Reason)
    requires Genuine(want, got, [], why)
    ensures Reports(want, got, path, Difference(path, why))
  {
    assert path[|path|..] == [];
  }

  lemma ReportsKey(want: Json, got: Json, path: seq<Step>, k: string, why: Reason)
    requires want.Obj? && got.Obj?
    requires (why == Missing && k in want.members && k !in got.members) || (why == Added && k !in want.members && k in got.members)
    requires why == Added ==> forall n :: n in want.members ==> n in got.members && got.members[n] == want.members[n]
    ensures Reports(want, got, path, Difference(path + [Key(k)], why))
  {
    assert (path + [Key(k)])[|path|..] == [Key(k)];
    assert [Key(k)][..0] == [];
  }

  lemma ReportsInside(want: Json, got: Json, path: seq<Step>, step: Step, d: Difference)
    requires At(want, [step]).Some? && At(got, [step]).Some?
    requires Reports(At(want, [step]).value, At(got, [step]).value, path + [step], d)
    requires step.Index? ==> |want.items| == |got.items| && want.items[..step.i] == got.items[..step.i]
    ensures Reports(want, got, path, d)
  {
    var rel := d.path[|path| + 1..];
    Inside(want, got, step, rel, d.why);
    assert d.path[|path|..] == [step] + rel && ([step] + rel)[1..] == rel;
    assert rel == [] ==> !d.why.Missing? && !d.why.Added?;
  }

  lemma OneStep(j: Json)
    ensures j.Obj? ==> forall k :: k in j.members ==> At(j, [Key(k)]) == Some(j.members[k])
    ensures j.Arr? ==> forall i: nat :: i < |j.items| ==> At(j, [Index(i)]) == Some(j.items[i])
  {
  }

  /** None is the empty string of the source. The documents are trees without Go's nil map, so the message
      after the switch is never reached: only decode makes a nil map, of the text null, and only as a whole
      document (DocumentsDifference). */
  method FirstDifference(want: Json, got: Json, path: seq<Step>) returns (d: Option<Difference>)
    ensures d.None? <==> want == got
    ensures d.Some? ==> Reports(want, got, path, d.value)
    decreases want
  {
    hide Reports;
    if want == got { return None; }
    OneStep(want);
    OneStep(got);
    match want
    case Obj(w) =>
      if !got.Obj? {
        ReportsHere(want, got, path, NotAnObject);
        return Some(Difference(path, NotAnObject));
      }
      var g, todo := got.members, w.Keys;
      while todo != {}
        invariant todo <= w.Keys
        invariant forall k :: k in w.Keys - todo ==> k in g && g[k] == w[k]
        decreases todo
      {
        var k :| k in todo;
        if k !in g {
          ReportsKey(want, got, path, k, Missing);
          return Some(Difference(path + [Key(k)], Missing));
        }
        d := FirstDifference(w[k], g[k], path + [Key(k)]);
        if d.Some? {
          ReportsInside(want, got, path, Key(k), d.value);
          return;
        }
        todo := todo - {k};
      }
      todo := g.Keys;
      while todo != {}
        invariant todo <= g.Keys
        invariant forall k :: k in g.Keys - todo ==> k in w
        decreases todo
      {
        var k :| k in todo;
        if k !in w {
          ReportsKey(want, got, path, k, Added);
          return Some(Difference(path + [Key(k)], Added));
        }
        todo := todo - {k};
      }
    case Arr(w) =>
      if !got.Arr? {
        ReportsHere(want, got, path, NotAnArray);
        return Some(Difference(path, NotAnArray));
      }
      var g := got.items;
      if |w| != |g| {
        ReportsHere(want, got, path, Length);
        return Some(Difference(path, Length));
      }
      for i := 0 to |w|
        invariant w[..i] == g[..i]
      {
        d := FirstDifference(w[i], g[i], path + [Index(i)]);
        if d.Some? {
          ReportsInside(want, got, path, Index(i), d.value);
          return;
        }
      }
    case _ =>
      ReportsHere(want, got, path, Leaf);
      return Some(Difference(path, Leaf));
    assert false;
    d := None;
  }

  /** What decode gives: None is the nil map, which the text null leaves. */
  type Document = Option<map<string, Json>>

  datatype Report = Same | Diverges(d: Difference) | NoPlace

  function Whole(d: Document): Json { Obj(if d.Some? then d.value else map[]) }

  /** The call on two whole documents. reflect.DeepEqual tells a nil map from an empty one, the loops do not:
      then the last message is all there is to say. */
  method DocumentsDifference(want: Document, got: Document) returns (r: Report)
    ensures r.Same? <==> want == got
    ensures r.NoPlace? <==> {want, got} == {None, Some(map[])}
    ensures r.Diverges? ==> Reports(Whole(want), Whole(got), [], r.d)
  {
    if want == got { return Same; }
    var d := FirstDifference(Whole(want), Whole(got), []);
    if d.Some? { return Diverges(d.value); }
    assert want.None? || got.None?;
    r := NoPlace;
  }

  /** What a reported path means: the two documents do not agree there. */
  lemma GenuineDiverges(want: Json, got: Json, path: seq<Step>, why: Reason)
    requires Genuine(want, got, path, why)
    ensures At(want, path) != At(got, path)
  {
    if why.Missing? || why.Added? {
      LastStep(want, path);
      LastStep(got, path);
    }
  }

  lemma {:induction false} LastStep(j: Json, path: seq<Step>)
    requires |path| > 0
    ensures HasKey(j, path) ==> At(j, path).Some?
    ensures LacksKey(j, path) ==> At(j, path).None?
    decreases |path|
  {
    if |path| > 1 {
      assert path[..|path| - 1][1..] == path[1..][..|path| - 2];
      match path[0]
      case Key(k) => if j.Obj? && k in j.members { LastStep(j.members[k], path[1..]); }
      case Index(i) => if j.Arr? && i < |j.items| { LastStep(j.items[i], path[1..]); }
    }
  }
}
