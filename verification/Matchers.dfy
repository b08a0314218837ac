/** What StubBuilder.Build means, on values: the grouping of field matchers into predicates, and
    which of the tests the caller wrote are still there afterwards. */
module Matchers {
  import opened Json

  /** The value of a matcher: a map[string]JSON, which Build merges, or anything else. */
  datatype FieldValue = Plain(j: Json) | Nested(m: map<string, Json>)

  /** The comparable signature of a matcher's parameters. */
  datatype MatcherParams = MatcherParams(caseSensitive: bool, hasCaseSensitive: bool,
                                         keyCaseSensitive: bool, hasKeyCaseSensitive: bool, except: string)

  datatype GroupKey = GroupKey(op: string, params: MatcherParams)

  /** One field matcher of a builder. */
  datatype Entry = Entry(key: GroupKey, field: string, value: FieldValue)

  const OPERATORS: set<string> := {"equals", "deepEquals", "contains", "startsWith", "endsWith", "matches", "exists"}

  type Fields = map<string, FieldValue>

  // ----- grouping -----

  function Merge(prev: Option<FieldValue>, v: FieldValue): FieldValue {
    if v.Nested? && prev.Some? && prev.value.Nested? then Nested(prev.value.m + v.m) else v
  }

  function Get(m: Fields, f: string): Option<FieldValue> {
    if f in m then Some(m[f]) else None
  }

  /** mergeField: an unknown operator has no field map to write to. */
  function Write(m: Fields, e: Entry): Fields {
    if e.key.op in OPERATORS then m[e.field := Merge(Get(m, e.field), e.value)] else m
  }

  function Group(g: map<GroupKey, Fields>, k: GroupKey): Fields {
    if k in g then g[k] else map[]
  }

  /** The field map of each group after all matchers are written, in order. */
  function Groups(es: seq<Entry>): map<GroupKey, Fields> {
    if es == [] then map[]
    else
      var g, e := Groups(es[..|es| - 1]), es[|es| - 1];
      g[e.key := Write(Group(g, e.key), e)]
  }

  /** The groups in the order Build emits them. */
  function Order(es: seq<Entry>): seq<GroupKey> {
    if es == [] then []
    else
      var o, e := Order(es[..|es| - 1]), es[|es| - 1];
      if e.key in o then o else o + [e.key]
  }

  lemma GroupsAppend(es: seq<Entry>, e: Entry)
    ensures Groups(es + [e]) == Groups(es)[e.key := Write(Group(Groups(es), e.key), e)]
    ensures Order(es + [e]) == if e.key in Order(es) then Order(es) else Order(es) + [e.key]
  {
    assert (es + [e])[..|es|] == es;
  }

  lemma {:induction false} OrderListsGroups(es: seq<Entry>)
    ensures forall k :: k in Order(es) <==> k in Groups(es)
    ensures forall k :: k in Order(es) <==> exists i :: 0 <= i < |es| && es[i].key == k
  {
    if es != [] {
      var p, e := es[..|es| - 1], es[|es| - 1];
      OrderListsGroups(p);
      forall k ensures k in Order(es) <==> exists i :: 0 <= i < |es| && es[i].key == k {
        if k in Order(p) {
          var i :| 0 <= i < |p| && p[i].key == k;
          assert es[i].key == k;
        }
        if i :| 0 <= i < |es| && es[i].key == k && i < |p| {
          assert p[i].key == k;
        }
      }
    }
  }

  /** Some entry of group a comes before every entry of group b. */
  ghost predicate Earlier(es: seq<Entry>, a: GroupKey, b: GroupKey) {
    exists i :: 0 <= i < |es| && es[i].key == a && forall j :: 0 <= j <= i ==> es[j].key != b
  }

  lemma EarlierKept(s: seq<Entry>, e: Entry, a: GroupKey, b: GroupKey)
    requires Earlier(s, a, b)
    ensures Earlier(s + [e], a, b)
  {
    var i :| 0 <= i < |s| && s[i].key == a && forall j :: 0 <= j <= i ==> s[j].key != b;
    assert (s + [e])[i] == s[i] && forall j :: 0 <= j <= i ==> (s + [e])[j] == s[j];
  }

  lemma NewGroupIsLast(s: seq<Entry>, e: Entry, a: GroupKey)
    requires a in Order(s) && e.key !in Order(s)
    ensures Earlier(s + [e], a, e.key)
  {
    OrderListsGroups(s);
    var i :| 0 <= i < |s| && s[i].key == a;
    assert (s + [e])[i].key == a;
    forall j | 0 <= j <= i ensures (s + [e])[j].key != e.key { assert s[j].key in Order(s); }
  }

  /** One predicate per distinct (operator, parameters) pair, in first-occurrence order. */
  lemma {:induction false} GroupingIsCanonical(es: seq<Entry>)
    ensures forall p, q :: 0 <= p < q < |Order(es)| ==> Order(es)[p] != Order(es)[q] && Earlier(es, Order(es)[p], Order(es)[q])
    ensures forall k :: k in Order(es) <==> exists i :: 0 <= i < |es| && es[i].key == k
  {
    OrderListsGroups(es);
    if es != [] {
      var s, e := es[..|es| - 1], es[|es| - 1];
      assert es == s + [e];
      GroupingIsCanonical(s);
      hide Earlier;
      forall p, q | 0 <= p < q < |Order(es)| ensures Earlier(es, Order(es)[p], Order(es)[q]) {
        if q < |Order(s)| {
          EarlierKept(s, e, Order(s)[p], Order(s)[q]);
        } else {
          NewGroupIsLast(s, e, Order(s)[p]);
        }
      }
    }
  }

  // ----- survival, by what comes later -----

  predicate Touches(e: Entry, k: GroupKey, f: string) { e.key == k && e.field == f }

  /** A later matcher of the same group and field takes key n away from the object at i. */
  ghost predicate Clobbered(es: seq<Entry>, i: nat, n: string)
    requires i < |es|
  {
    exists j :: i < j < |es| && Touches(es[j], es[i].key, es[i].field) && (es[j].value.Plain? || n in es[j].value.m)
  }

  /** Any later matcher of the same group and field replaces a plain value. */
  ghost predicate Superseded(es: seq<Entry>, i: nat)
    requires i < |es|
  {
    exists j :: i < j < |es| && Touches(es[j], es[i].key, es[i].field)
  }

  ghost predicate PlainSurvives(es: seq<Entry>, i: nat, k: GroupKey, f: string, j: Json) {
    i < |es| && Touches(es[i], k, f) && es[i].value == Plain(j) && !Superseded(es, i)
  }

  ghost predicate KeySurvives(es: seq<Entry>, i: nat, k: GroupKey, f: string, n: string, v: Json) {
    i < |es| && Touches(es[i], k, f) && es[i].value.Nested? && n in es[i].value.m && es[i].value.m[n] == v && !Clobbered(es, i, n)
  }

  ghost predicate LastIsNested(es: seq<Entry>, k: GroupKey, f: string) {
    exists i :: 0 <= i < |es| && Touches(es[i], k, f) && es[i].value.Nested? && !Superseded(es, i)
  }

  /** The surviving value of a field: the last plain value, or the object made of every key no later
      matcher took away. */
  ghost predicate Survivor(es: seq<Entry>, k: GroupKey, f: string, v: FieldValue) {
    match v
    case Plain(j) => exists i :: PlainSurvives(es, i, k, f, j)
    case Nested(m) =>
      && LastIsNested(es, k, f)
      && (forall n :: n in m ==> exists i :: KeySurvives(es, i, k, f, n, m[n]))
      && (forall n, i, x :: KeySurvives(es, i, k, f, n, x) ==> n in m && m[n] == x)
  }

  lemma AppendOther(p: seq<Entry>, e: Entry, k: GroupKey, f: string)
    requires !Touches(e, k, f)
    ensures forall i, j :: PlainSurvives(p + [e], i, k, f, j) <==> PlainSurvives(p, i, k, f, j)
    ensures forall i, n, x :: KeySurvives(p + [e], i, k, f, n, x) <==> KeySurvives(p, i, k, f, n, x)
    ensures LastIsNested(p + [e], k, f) <==> LastIsNested(p, k, f)
  {
    var es := p + [e];
    forall i: nat | i < |p| && Touches(p[i], k, f)
      ensures Superseded(es, i) <==> Superseded(p, i)
      ensures forall n :: Clobbered(es, i, n) <==> Clobbered(p, i, n)
    {
      AppendLater(p, e, i);
    }
  }

  /** What one more matcher does to the fate of an earlier one. */
  lemma AppendLater(p: seq<Entry>, e: Entry, i: nat)
    requires i < |p|
    ensures Superseded(p + [e], i) <==> Superseded(p, i) || Touches(e, p[i].key, p[i].field)
    ensures forall n :: Clobbered(p + [e], i, n) <==>
                        Clobbered(p, i, n) || (Touches(e, p[i].key, p[i].field) && (e.value.Plain? || n in e.value.m))
  {
    var es := p + [e];
    assert forall j :: 0 <= j < |p| ==> es[j] == p[j];
    assert es[|p|] == e;
    if Superseded(p, i) {
      var j :| i < j < |p| && Touches(p[j], p[i].key, p[i].field);
      assert Touches(es[j], es[i].key, es[i].field);
    }
    forall n ensures Clobbered(es, i, n) <==> Clobbered(p, i, n) || (Touches(e, p[i].key, p[i].field) && (e.value.Plain? || n in e.value.m)) {
      if Clobbered(p, i, n) {
        var j :| i < j < |p| && Touches(p[j], p[i].key, p[i].field) && (p[j].value.Plain? || n in p[j].value.m);
        assert Touches(es[j], es[i].key, es[i].field);
      }
    }
  }

  lemma AppendHere(p: seq<Entry>, e: Entry, k: GroupKey, f: string)
    requires Touches(e, k, f)
    ensures forall i, j :: PlainSurvives(p + [e], i, k, f, j) <==> i == |p| && e.value == Plain(j)
    ensures forall i, n, x :: KeySurvives(p + [e], i, k, f, n, x) <==>
              e.value.Nested? &&
              if i == |p| then n in e.value.m && e.value.m[n] == x else n !in e.value.m && KeySurvives(p, i, k, f, n, x)
    ensures LastIsNested(p + [e], k, f) <==> e.value.Nested?
  {
    var es := p + [e];
    assert es[|p|] == e && !Superseded(es, |p|) && forall n :: !Clobbered(es, |p|, n);
    forall i: nat | i < |p| && Touches(p[i], k, f)
      ensures Superseded(es, i)
      ensures forall n :: Clobbered(es, i, n) <==> Clobbered(p, i, n) || e.value.Plain? || n in e.value.m
    {
      AppendLater(p, e, i);
    }
    assert forall i: nat :: i < |p| ==> es[i] == p[i];
  }

  lemma PlainExcludesKeys(es: seq<Entry>, k: GroupKey, f: string, j: Json)
    requires Survivor(es, k, f, Plain(j))
    ensures !LastIsNested(es, k, f) && forall i, n, x :: !KeySurvives(es, i, k, f, n, x)
  {
    var l: nat :| PlainSurvives(es, l, k, f, j);
    forall i: nat, n, x ensures !KeySurvives(es, i, k, f, n, x) {
      if i < |es| && Touches(es[i], k, f) && es[i].value.Nested? {
        assert i < l ==> Clobbered(es, i, n);
      }
    }
  }

  /** Forward merging computes exactly the surviving value of every field of every group. */
  lemma {:induction false} GroupsHoldSurvivors(es: seq<Entry>, k: GroupKey, f: string)
    requires k.op in OPERATORS
    ensures Get(Group(Groups(es), k), f).None? <==> forall i :: 0 <= i < |es| ==> !Touches(es[i], k, f)
    ensures Get(Group(Groups(es), k), f).Some? ==> Survivor(es, k, f, Get(Group(Groups(es), k), f).value)
  {
    if es != [] {
      var p, e := es[..|es| - 1], es[|es| - 1];
      assert es == p + [e];
      GroupsHoldSurvivors(p, k, f);
      var old', new' := Get(Group(Groups(p), k), f), Get(Group(Groups(es), k), f);
      if Touches(e, k, f) {
        AppendHere(p, e, k, f);
        assert new' == Some(Merge(old', e.value));
        SurvivorStep(p, e, k, f, old');
      } else {
        AppendOther(p, e, k, f);
        assert new' == old';
        if old'.Some? { SurvivorKept(p, e, k, f, old'.value); }
      }
    }
  }

  lemma SurvivorKept(p: seq<Entry>, e: Entry, k: GroupKey, f: string, v: FieldValue)
    requires !Touches(e, k, f) && Survivor(p, k, f, v)
    ensures Survivor(p + [e], k, f, v)
  {
    AppendOther(p, e, k, f);
    match v
    case Plain(j) =>
      var i: nat :| PlainSurvives(p, i, k, f, j);
      assert PlainSurvives(p + [e], i, k, f, j);
    case Nested(m) =>
      forall n | n in m ensures exists i :: KeySurvives(p + [e], i, k, f, n, m[n]) {
        var i: nat :| KeySurvives(p, i, k, f, n, m[n]);
        assert KeySurvives(p + [e], i, k, f, n, m[n]);
      }
  }

  lemma SurvivorStep(p: seq<Entry>, e: Entry, k: GroupKey, f: string, prev: Option<FieldValue>)
    requires Touches(e, k, f)
    requires prev.None? ==> forall i :: 0 <= i < |p| ==> !Touches(p[i], k, f)
    requires prev.Some? ==> Survivor(p, k, f, prev.value)
    ensures Survivor(p + [e], k, f, Merge(prev, e.value))
  {
    AppendHere(p, e, k, f);
    match e.value
    case Plain(j) =>
      assert PlainSurvives(p + [e], |p|, k, f, j);
    case Nested(m) =>
      var r := Merge(prev, e.value).m;
      forall n | n in r ensures exists i :: KeySurvives(p + [e], i, k, f, n, r[n]) {
        if n in m {
          assert KeySurvives(p + [e], |p|, k, f, n, r[n]);
        } else {
          var i: nat :| KeySurvives(p, i, k, f, n, r[n]);
          assert KeySurvives(p + [e], i, k, f, n, r[n]);
        }
      }
      forall n, i, x | KeySurvives(p + [e], i, k, f, n, x) ensures n in r && r[n] == x {
        if i != |p| && prev.Some? && prev.value.Plain? {
          PlainExcludesKeys(p, k, f, prev.value.j);
        }
      }
  }

  lemma SurvivorIsUnique(es: seq<Entry>, k: GroupKey, f: string, v: FieldValue, w: FieldValue)
    requires Survivor(es, k, f, v) && Survivor(es, k, f, w)
    ensures v == w
  {
    if v.Plain? { PlainExcludesKeys(es, k, f, v.j); }
    if w.Plain? { PlainExcludesKeys(es, k, f, w.j); }
    if v.Nested? && w.Nested? {
      forall n ensures n in v.m <==> n in w.m ensures n in v.m ==> v.m[n] == w.m[n] {
        if n in v.m { var i: nat :| KeySurvives(es, i, k, f, n, v.m[n]); }
        if n in w.m { var i: nat :| KeySurvives(es, i, k, f, n, w.m[n]); }
      }
      assert v.m == w.m;
    }
  }

  /** The last matcher on a field of its group is in the field's value: whole if it is plain, and with every
      key of it if it is an object. */
  lemma LastMatcherHolds(es: seq<Entry>, i: nat)
    requires i < |es| && es[i].key.op in OPERATORS && !Superseded(es, i)
    ensures var v := Get(Group(Groups(es), es[i].key), es[i].field);
            && v.Some?
            && (es[i].value.Plain? ==> v.value == es[i].value)
            && (es[i].value.Nested? ==> v.value.Nested? && forall n :: n in es[i].value.m ==> n in v.value.m && v.value.m[n] == es[i].value.m[n])
  {
    var k, f := es[i].key, es[i].field;
    GroupsHoldSurvivors(es, k, f);
    assert Touches(es[i], k, f);
    var v := Get(Group(Groups(es), k), f).value;
    match es[i].value
    case Plain(j) =>
      assert PlainSurvives(es, i, k, f, j);
      SurvivorIsUnique(es, k, f, v, Plain(j));
    case Nested(m) =>
      assert LastIsNested(es, k, f);
      if v.Plain? { PlainExcludesKeys(es, k, f, v.j); }
      forall n | n in m ensures n in v.m && v.m[n] == m[n] {
        assert KeySurvives(es, i, k, f, n, m[n]);
      }
  }

  // ----- meaning -----

  /** One uninterpreted test of a request: an operator and its parameters applied to a field, or to
      one key of an object-valued field, with the expected value. */
  datatype Leaf = Leaf(key: GroupKey, field: string, member: Option<string>, value: Json)

  function FieldJson(v: FieldValue): Json { if v.Plain? then v.j else Obj(v.m) }

  /** The tests a field's value on the wire stands for. An object is tested key by key, except by
      deepEquals, which compares it whole. */
  predicate LeafOf(leaf: Leaf, k: GroupKey, f: string, j: Json) {
    && leaf.key == k && leaf.field == f && k.op in OPERATORS
    && if j.Obj? && k.op != "deepEquals"
       then leaf.member.Some? && leaf.member.value in j.members && leaf.value == j.members[leaf.member.value]
       else leaf.member.None? && leaf.value == j
  }

  /** A test of the predicates Build groups the matchers into. */
  ghost predicate Built(es: seq<Entry>, leaf: Leaf) {
    var v := Get(Group(Groups(es), leaf.key), leaf.field);
    v.Some? && LeafOf(leaf, leaf.key, leaf.field, FieldJson(v.value))
  }

  /** A test of some surviving field value. */
  ghost predicate Kept(es: seq<Entry>, leaf: Leaf) {
    exists v :: Survivor(es, leaf.key, leaf.field, v) && LeafOf(leaf, leaf.key, leaf.field, FieldJson(v))
  }

  /** A test of some matcher as the caller wrote it. */
  ghost predicate Written(es: seq<Entry>, leaf: Leaf) {
    exists i :: 0 <= i < |es| && LeafOf(leaf, es[i].key, es[i].field, FieldJson(es[i].value))
  }

  /** Build's predicates test exactly the surviving matchers, for every matcher list. */
  lemma BuildTestsSurvivors(es: seq<Entry>, leaf: Leaf)
    ensures Built(es, leaf) <==> Kept(es, leaf)
  {
    if leaf.key.op in OPERATORS {
      GroupsHoldSurvivors(es, leaf.key, leaf.field);
      var v := Get(Group(Groups(es), leaf.key), leaf.field);
      if w :| Survivor(es, leaf.key, leaf.field, w) {
        SurvivorTouches(es, leaf.key, leaf.field, w);
        SurvivorIsUnique(es, leaf.key, leaf.field, v.value, w);
      }
    }
  }

  lemma SurvivorTouches(es: seq<Entry>, k: GroupKey, f: string, v: FieldValue)
    requires Survivor(es, k, f, v)
    ensures exists i :: 0 <= i < |es| && Touches(es[i], k, f)
  {
    match v
    case Plain(j) => var i: nat :| PlainSurvives(es, i, k, f, j);
    case Nested(_) => var i :| 0 <= i < |es| && Touches(es[i], k, f) && es[i].value.Nested? && !Superseded(es, i);
  }

  /** The conjunction of the built predicates, under an interpretation of the tests at some request. */
  ghost predicate BuiltHolds(es: seq<Entry>, test: Leaf -> bool) { forall leaf :: Built(es, leaf) ==> test(leaf) }

  /** The conjunction of the matchers as written. */
  ghost predicate WrittenHolds(es: seq<Entry>, test: Leaf -> bool) { forall leaf :: Written(es, leaf) ==> test(leaf) }

  /** Every test the caller wrote survives. */
  ghost predicate Lossless(es: seq<Entry>) {
    forall leaf :: Written(es, leaf) ==> Kept(es, leaf)
  }

  lemma BuiltIsWritten(es: seq<Entry>, leaf: Leaf)
    requires Built(es, leaf) && Lossless(es)
    ensures Written(es, leaf)
  {
    BuildTestsSurvivors(es, leaf);
    hide Groups, Built;
    var k, f := leaf.key, leaf.field;
    var v :| Survivor(es, k, f, v) && LeafOf(leaf, k, f, FieldJson(v));
    match v
    case Plain(j) =>
      var i: nat :| PlainSurvives(es, i, k, f, j);
    case Nested(m) =>
      if k.op == "deepEquals" {
        var i :| 0 <= i < |es| && Touches(es[i], k, f) && es[i].value.Nested? && !Superseded(es, i);
        var whole := Leaf(k, f, None, FieldJson(es[i].value));
        assert LeafOf(whole, es[i].key, es[i].field, FieldJson(es[i].value));
        assert Written(es, whole) && Kept(es, whole);
        var w :| Survivor(es, k, f, w) && LeafOf(whole, k, f, FieldJson(w));
        SurvivorIsUnique(es, k, f, v, w);
      } else {
        var i: nat :| KeySurvives(es, i, k, f, leaf.member.value, leaf.value);
        assert LeafOf(leaf, es[i].key, es[i].field, FieldJson(es[i].value));
      }
  }

  /** Build means the AND of the matchers as written, whatever the tests mean, exactly when no
      written test is lost to a later matcher. */
  lemma BuildPreservesMeaning(es: seq<Entry>)
    ensures (forall test: Leaf -> bool :: BuiltHolds(es, test) <==> WrittenHolds(es, test)) <==> Lossless(es)
  {
    if Lossless(es) {
      forall leaf ensures Built(es, leaf) <==> Written(es, leaf) {
        BuildTestsSurvivors(es, leaf);
        if Built(es, leaf) { BuiltIsWritten(es, leaf); }
      }
    }
    if forall test: Leaf -> bool :: BuiltHolds(es, test) <==> WrittenHolds(es, test) {
      var test := leaf => Built(es, leaf);
      assert BuiltHolds(es, test);
      assert WrittenHolds(es, test);
      forall leaf | Written(es, leaf) ensures Kept(es, leaf) {
        assert test(leaf);
        BuildTestsSurvivors(es, leaf);
      }
    }
  }

  /** Two deepEquals matchers on one object field merge into one larger comparison, so neither of the
      two comparisons the caller wrote is made. */
  lemma DeepEqualsDoesNotDistribute(k: GroupKey, f: string)
    requires k.op == "deepEquals"
    ensures !Lossless([Entry(k, f, Nested(map["a" := Null])), Entry(k, f, Nested(map["b" := Null]))])
  {
    var es := [Entry(k, f, Nested(map["a" := Null])), Entry(k, f, Nested(map["b" := Null]))];
    var whole := Leaf(k, f, None, Obj(map["a" := Null]));
    assert LeafOf(whole, es[0].key, es[0].field, FieldJson(es[0].value));
    assert Written(es, whole);
    if Kept(es, whole) {
      var v :| Survivor(es, k, f, v) && LeafOf(whole, k, f, FieldJson(v));
      assert KeySurvives(es, 1, k, f, "b", Null);
      match v
      case Plain(j) => PlainExcludesKeys(es, k, f, j);
      case Nested(m) =>
    }
  }

  /** Two matchers of one group on one field say the same, or are objects tested key by key that
      do not disagree on a key. */
  predicate Agree(a: Entry, b: Entry) {
    a.key == b.key && a.field == b.field && a.key.op in OPERATORS ==>
      if a.value.Nested? && b.value.Nested? && a.key.op != "deepEquals"
      then forall n :: n in a.value.m && n in b.value.m ==> a.value.m[n] == b.value.m[n]
      else a.value == b.value
  }

  predicate Agreeing(es: seq<Entry>) { forall i, j :: 0 <= i < j < |es| ==> Agree(es[i], es[j]) }

  /** v holds what the matcher e said. */
  predicate Includes(v: FieldValue, e: Entry) {
    if e.value.Plain? || e.key.op == "deepEquals" then v == e.value
    else v.Nested? && forall n :: n in e.value.m ==> n in v.m && v.m[n] == e.value.m[n]
  }

  /** Merging a matcher into a value keeps what an agreeing matcher said. */
  lemma MergeIncludes(prev: Option<FieldValue>, x: Entry, e: Entry)
    requires Touches(e, x.key, x.field) && e.key.op in OPERATORS && Agree(x, e) && prev.Some? && Includes(prev.value, x)
    ensures Includes(Merge(prev, e.value), x) && Includes(Merge(prev, e.value), e)
  {
    if e.value.Nested? {
      assert e.value.m + e.value.m == e.value.m;
    }
  }

  /** Matchers that agree leave a field holding everything each of them said. */
  lemma {:induction false} AgreeingValue(es: seq<Entry>, i: nat)
    requires Agreeing(es) && i < |es| && es[i].key.op in OPERATORS
    ensures var v := Get(Group(Groups(es), es[i].key), es[i].field);
            v.Some? && Includes(v.value, es[i])
  {
    hide Groups, Agree, Includes;
    var p, e := es[..|es| - 1], es[|es| - 1];
    var k, f := es[i].key, es[i].field;
    assert es == p + [e];
    GroupsAppend(p, e);
    assert Agreeing(p);
    var prev := Get(Group(Groups(p), k), f);
    if i < |p| {
      AgreeingValue(p, i);
      if Touches(e, k, f) { MergeIncludes(prev, es[i], e); }
    } else {
      GroupsHoldSurvivors(p, k, f);
      if j :| 0 <= j < |p| && Touches(p[j], k, f) {
        AgreeingValue(p, j);
        MergeIncludes(prev, es[j], e);
      } else {
        assert Includes(e.value, e) by { IncludesItself(e); }
      }
    }
  }

  lemma IncludesItself(e: Entry)
    ensures Includes(e.value, e)
  {
  }

  lemma AgreeingIsLossless(es: seq<Entry>)
    requires Agreeing(es)
    ensures Lossless(es)
  {
    forall leaf | Written(es, leaf) ensures Kept(es, leaf) {
      var i :| 0 <= i < |es| && LeafOf(leaf, es[i].key, es[i].field, FieldJson(es[i].value));
      AgreeingValue(es, i);
      BuildTestsSurvivors(es, leaf);
    }
  }

  /** The matcher makes at least one test, and only a map[string]JSON is an object. An empty object has no
      keys to test; deepEquals compares even that as a whole. */
  predicate Solid(e: Entry) {
    if e.value.Plain? then !e.value.j.Obj? else e.key.op == "deepEquals" || e.value.m != map[]
  }

  /** Checked pair by pair before the call: nothing the caller wrote is lost exactly when no two
      matchers disagree. */
  lemma LosslessIffAgreeing(es: seq<Entry>)
    requires forall i :: 0 <= i < |es| ==> Solid(es[i])
    ensures Lossless(es) <==> Agreeing(es)
  {
    if Agreeing(es) { AgreeingIsLossless(es); }
    if Lossless(es) {
      forall i, j | 0 <= i < j < |es| && Touches(es[i], es[j].key, es[j].field) && es[i].key.op in OPERATORS ensures Agree(es[i], es[j]) {
        var v := Get(Group(Groups(es), es[i].key), es[i].field);
        LosslessIncludes(es, i);
        LosslessIncludes(es, j);
      }
    }
  }

  lemma LosslessIncludes(es: seq<Entry>, i: nat)
    requires Lossless(es) && i < |es| && Solid(es[i]) && es[i].key.op in OPERATORS
    ensures var v := Get(Group(Groups(es), es[i].key), es[i].field);
            v.Some? && if es[i].value.Plain? || es[i].key.op == "deepEquals" then FieldJson(v.value) == FieldJson(es[i].value)
                       else FieldJson(v.value).Obj? && forall n :: n in es[i].value.m ==>
                              n in FieldJson(v.value).members && FieldJson(v.value).members[n] == es[i].value.m[n]
  {
    var e := es[i];
    if e.value.Plain? || e.key.op == "deepEquals" {
      WrittenIsBuilt(es, i, Leaf(e.key, e.field, None, FieldJson(e.value)));
    } else {
      forall n | n in e.value.m
        ensures var v := Get(Group(Groups(es), e.key), e.field);
                v.Some? && LeafOf(Leaf(e.key, e.field, Some(n), e.value.m[n]), e.key, e.field, FieldJson(v.value))
      {
        WrittenIsBuilt(es, i, Leaf(e.key, e.field, Some(n), e.value.m[n]));
      }
      var n :| n in e.value.m;
    }
  }

  lemma WrittenIsBuilt(es: seq<Entry>, i: nat, leaf: Leaf)
    requires Lossless(es) && i < |es| && LeafOf(leaf, es[i].key, es[i].field, FieldJson(es[i].value))
    ensures Built(es, leaf)
  {
    assert Written(es, leaf);
    BuildTestsSurvivors(es, leaf);
  }

  /** Reordering matchers that agree only permutes the grouped predicates. */
  lemma ReorderingPermutes(es: seq<Entry>, fs: seq<Entry>)
    requires Agreeing(es) && forall e :: e in es <==> e in fs
    ensures forall k :: k in Order(es) <==> k in Order(fs)
    ensures forall k: GroupKey, f :: k.op in OPERATORS ==> Get(Group(Groups(es), k), f) == Get(Group(Groups(fs), k), f)
  {
    forall k ensures k in Order(es) <==> k in Order(fs) {
      OrderListsGroups(es);
      OrderListsGroups(fs);
      if i :| 0 <= i < |es| && es[i].key == k { assert es[i] in fs; }
      if i :| 0 <= i < |fs| && fs[i].key == k { assert fs[i] in es; }
    }
    ReorderedAgree(es, fs);
    forall k: GroupKey, f | k.op in OPERATORS ensures Get(Group(Groups(es), k), f) == Get(Group(Groups(fs), k), f) {
      SameFieldValue(es, fs, k, f);
    }
  }

  lemma ReorderedAgree(es: seq<Entry>, fs: seq<Entry>)
    requires Agreeing(es) && forall e :: e in fs ==> e in es
    ensures Agreeing(fs)
  {
    forall i, j | 0 <= i < j < |fs| ensures Agree(fs[i], fs[j]) {
      assert fs[i] in es && fs[j] in es;
      var l, m :| 0 <= l < |es| && es[l] == fs[i] && 0 <= m < |es| && es[m] == fs[j];
      assert l < m ==> Agree(es[l], es[m]);
      assert m < l ==> Agree(es[m], es[l]);
    }
  }

  lemma SameFieldValue(es: seq<Entry>, fs: seq<Entry>, k: GroupKey, f: string)
    requires Agreeing(es) && Agreeing(fs) && (forall e :: e in es <==> e in fs) && k.op in OPERATORS
    ensures Get(Group(Groups(es), k), f) == Get(Group(Groups(fs), k), f)
  {
    hide Groups, Survivor, Agreeing;
    GroupsHoldSurvivors(es, k, f);
    GroupsHoldSurvivors(fs, k, f);
    var v, w := Get(Group(Groups(es), k), f), Get(Group(Groups(fs), k), f);
    if i :| 0 <= i < |es| && Touches(es[i], k, f) {
      assert es[i] in fs;
      var j :| 0 <= j < |fs| && fs[j] == es[i];
      AgreeingValue(es, i);
      AgreeingValue(fs, j);
      if es[i].value.Nested? {
        FieldIncluded(es, fs, k, f, v.value, w.value);
        FieldIncluded(fs, es, k, f, w.value, v.value);
        assert v.value.m == w.value.m;
      }
    } else {
      forall j | 0 <= j < |fs| ensures !Touches(fs[j], k, f) { assert fs[j] in es; }
    }
  }

  lemma FieldIncluded(es: seq<Entry>, fs: seq<Entry>, k: GroupKey, f: string, v: FieldValue, w: FieldValue)
    requires Agreeing(fs) && (forall e :: e in es ==> e in fs) && k.op in OPERATORS
    requires Survivor(es, k, f, v) && Get(Group(Groups(fs), k), f) == Some(w) && v.Nested? && w.Nested?
    ensures forall n :: n in v.m ==> n in w.m && w.m[n] == v.m[n]
  {
    hide Groups, Agreeing;
    forall n | n in v.m ensures n in w.m && w.m[n] == v.m[n] {
      var i: nat :| KeySurvives(es, i, k, f, n, v.m[n]);
      assert es[i] in fs;
      var j :| 0 <= j < |fs| && fs[j] == es[i];
      AgreeingValue(fs, j);
    }
  }
}
