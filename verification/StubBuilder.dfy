/** StubBuilder over the heap: Go maps are references, so what Build writes to matters. */
module StubBuilder {
  import opened Json
  import opened Matchers

  /** A map[string]JSON held by reference. */
  class ObjectMap {
    var m: map<string, Json>

    constructor (m: map<string, Json>)
      ensures this.m == m
    {
      this.m := m;
    }
  }

  /** A JSON (any) value as a matcher or a field map holds it. */
  datatype AnyValue = Other(j: Json) | Ref(o: ObjectMap)

  function View(v: AnyValue): FieldValue
    reads if v.Ref? then {v.o} else {}
  {
    match v
    case Other(j) => Plain(j)
    case Ref(o) => Nested(o.m)
  }

  /** A FieldMatch: field name to matcher value. */
  class FieldMatch {
    var m: map<string, AnyValue>

    constructor ()
      ensures m == map[]
    {
      m := map[];
    }
  }

  /** The Predicate struct: its seven operator maps by operator name (nil ones absent), its
      parameters, and whatever else a raw predicate carries. */
  datatype Predicate = Predicate(ops: map<string, FieldMatch>, caseSensitive: Option<bool>, keyCaseSensitive: Option<bool>,
                                 except: string, rest: Json)

  /** A *Predicate. */
  class PredicateCell {
    var p: Predicate
    ghost var Repr: set<object>

    constructor ()
      ensures p == Predicate(map[], None, None, "", Null) && Repr == {this}
    {
      p := Predicate(map[], None, None, "", Null);
      Repr := {this};
    }
  }

  datatype Matcher = Matcher(op: string, value: AnyValue, caseSensitive: Option<bool>, keyCaseSensitive: Option<bool>, except: string)
  {
    function Params(): MatcherParams {
      MatcherParams(caseSensitive.Some? && caseSensitive.value, caseSensitive.Some?,
                    keyCaseSensitive.Some? && keyCaseSensitive.value, keyCaseSensitive.Some?, except)
    }
  }

  // ----- the constructors -----

  function Equals(v: AnyValue): Matcher { Matcher("equals", v, None, None, "") }

  function DeepEquals(v: AnyValue): Matcher { Matcher("deepEquals", v, None, None, "") }

  function Contains(v: AnyValue): Matcher { Matcher("contains", v, None, None, "") }

  function StartsWith(v: AnyValue): Matcher { Matcher("startsWith", v, None, None, "") }

  function EndsWith(v: AnyValue): Matcher { Matcher("endsWith", v, None, None, "") }

  function Matches(pattern: string): Matcher { Matcher("matches", Other(Str(pattern)), None, None, "") }

  function Exists(present: bool): Matcher { Matcher("exists", Other(Bool(present)), None, None, "") }

  /** m is the constructor's matcher for v, with any settings; name is the wire key its documentation gives. */
  ghost predicate Constructed(m: Matcher, name: string, v: AnyValue) {
    var plain := Matcher(m.op, m.value, None, None, "");
    || (name == "equals" && plain == Equals(v))
    || (name == "deepEquals" && plain == DeepEquals(v))
    || (name == "contains" && plain == Contains(v))
    || (name == "startsWith" && plain == StartsWith(v))
    || (name == "endsWith" && plain == EndsWith(v))
    || (name == "matches" && exists pattern :: v == Other(Str(pattern)) && plain == Matches(pattern))
    || (name == "exists" && exists present :: v == Other(Bool(present)) && plain == Exists(present))
  }

  /** Or what withNested makes of it for an object field. */
  ghost predicate Made(m: Matcher, name: string, v: AnyValue) {
    Constructed(m, name, v) || (v.Ref? && m.value == v && exists j :: Constructed(m.(value := Other(j)), name, Other(j)))
  }

  lemma {:induction false} MadeIs(m: Matcher, name: string, v: AnyValue)
    requires Made(m, name, v)
    ensures m.op == name && m.value == v && name in OPERATORS
  {
  }

  /** The settings apply writes for a signature. */
  function CaseOf(p: MatcherParams): Option<bool> { if p.hasCaseSensitive then Some(p.caseSensitive) else None }

  function KeyCaseOf(p: MatcherParams): Option<bool> { if p.hasKeyCaseSensitive then Some(p.keyCaseSensitive) else None }

  /** Matchers are grouped together only if their settings agree, and the group's predicate gets
      exactly the settings of each of its matchers. */
  lemma {:induction false} ParamsFaithful(a: Matcher, b: Matcher)
    ensures a.Params() == b.Params() <==>
            a.caseSensitive == b.caseSensitive && a.keyCaseSensitive == b.keyCaseSensitive && a.except == b.except
    ensures CaseOf(a.Params()) == a.caseSensitive && KeyCaseOf(a.Params()) == a.keyCaseSensitive && a.Params().except == a.except
  {
  }

  method Apply(params: MatcherParams, pred: PredicateCell)
    modifies pred`p
    ensures pred.p == old(pred.p).(
              caseSensitive := if params.hasCaseSensitive then Some(params.caseSensitive) else old(pred.p.caseSensitive),
              keyCaseSensitive := if params.hasKeyCaseSensitive then Some(params.keyCaseSensitive) else old(pred.p.keyCaseSensitive),
              except := if params.except != "" then params.except else old(pred.p.except))
  {
    if params.hasCaseSensitive {
      pred.p := pred.p.(caseSensitive := Some(params.caseSensitive));
    }
    if params.hasKeyCaseSensitive {
      pred.p := pred.p.(keyCaseSensitive := Some(params.keyCaseSensitive));
    }
    if params.except != "" {
      pred.p := pred.p.(except := params.except);
    }
  }

  /** The field map of an operator, as a set of at most one object. */
  function MapOf(p: Predicate, op: string): set<FieldMatch> {
    if op in p.ops then {p.ops[op]} else {}
  }

  /** The object a field already holds by reference, as a set of at most one object. */
  function ObjectAt(p: Predicate, op: string, field: string): set<ObjectMap>
    reads MapOf(p, op)
  {
    if op in p.ops && field in p.ops[op].m && p.ops[op].m[field].Ref? then {p.ops[op].m[field].o} else {}
  }

  function Existing(p: Predicate, op: string, field: string): Option<FieldValue>
    reads MapOf(p, op), ObjectAt(p, op, field)
  {
    if op in p.ops && field in p.ops[op].m then Some(View(p.ops[op].m[field])) else None
  }

  method SetField(pred: PredicateCell, op: string, field: string, value: AnyValue)
    modifies pred`p, MapOf(pred.p, op)
    ensures op !in {"equals", "deepEquals", "contains", "startsWith", "endsWith", "matches", "exists"} ==>
              pred.p == old(pred.p) && forall fm :: fm in MapOf(pred.p, op) ==> fm.m == old(fm.m)
    ensures op in {"equals", "deepEquals", "contains", "startsWith", "endsWith", "matches", "exists"} ==>
              && op in pred.p.ops && pred.p == old(pred.p).(ops := old(pred.p.ops)[op := pred.p.ops[op]])
              && (if op in old(pred.p.ops) then pred.p.ops[op] == old(pred.p.ops[op]) else fresh(pred.p.ops[op]))
              && pred.p.ops[op].m == (if op in old(pred.p.ops) then old(pred.p.ops[op].m) else map[])[field := value]
  {
    if op in OPERATORS {
      if op !in pred.p.ops {
        var fm := new FieldMatch();
        pred.p := pred.p.(ops := pred.p.ops[op := fm]);
      }
      pred.p.ops[op].m := pred.p.ops[op].m[field := value];
    }
  }

  /** Copies src's entries into dst one by one. */
  method CopyInto(dst: ObjectMap, src: map<string, Json>)
    modifies dst
    ensures dst.m == old(dst.m) + src
  {
    var todo := src.Keys;
    while todo != {}
      invariant todo <= src.Keys
      invariant dst.m.Keys == old(dst.m).Keys + (src.Keys - todo)
      invariant forall k :: k in dst.m ==> dst.m[k] == if k in src && k !in todo then src[k] else old(dst.m)[k]
      decreases todo
    {
      var k :| k in todo;
      dst.m := dst.m[k := src[k]];
      todo := todo - {k};
    }
    assert dst.m == old(dst.m) + src;
  }

  method MergeField(pred: PredicateCell, op: string, field: string, value: AnyValue)
    modifies pred`p, MapOf(pred.p, op), ObjectAt(pred.p, op, field)
    ensures op !in OPERATORS ==> pred.p == old(pred.p) && (op !in old(pred.p.ops) || pred.p.ops[op].m == old(pred.p.ops[op].m))
    ensures op in OPERATORS ==>
              && op in pred.p.ops && pred.p == old(pred.p).(ops := old(pred.p.ops)[op := pred.p.ops[op]])
              && (if op in old(pred.p.ops) then pred.p.ops[op] == old(pred.p.ops[op]) else fresh(pred.p.ops[op]))
              && field in pred.p.ops[op].m
              && pred.p.ops[op].m == (if op in old(pred.p.ops) then old(pred.p.ops[op].m) else map[])[field := pred.p.ops[op].m[field]]
              && View(pred.p.ops[op].m[field]) == Merge(old(Existing(pred.p, op, field)), old(View(value)))
              && (var v := pred.p.ops[op].m[field]; v.Ref? ==> v.o in old(ObjectAt(pred.p, op, field)) || fresh(v.o))
  {
    if value.Other? {
      SetField(pred, op, field, value);
      return;
    }
    var nested := value.o.m;
    if op in OPERATORS && op in pred.p.ops && field in pred.p.ops[op].m && pred.p.ops[op].m[field].Ref? {
      CopyInto(pred.p.ops[op].m[field].o, nested);
      return;
    }
    var merged := new ObjectMap(map[]);
    CopyInto(merged, nested);
    assert merged.m == nested;
    SetField(pred, op, field, Ref(merged));
  }

  // ----- the predicates under construction -----

  /** The objects an operator's field map refers to. */
  function ObjectsOf(p: Predicate, op: string): set<ObjectMap>
    reads MapOf(p, op)
  {
    if op in p.ops then set f | f in p.ops[op].m && p.ops[op].m[f].Ref? :: p.ops[op].m[f].o else {}
  }

  /** The maps the predicate of group k is made of. */
  function Parts(p: Predicate, k: GroupKey): set<object>
    reads MapOf(p, k.op)
  {
    MapOf(p, k.op) + ObjectsOf(p, k.op)
  }

  /** p is the predicate of group k with the given field values: the group's parameters, its one
      operator map (none for an unknown operator), and for each object value a map of its own. */
  ghost predicate Shows(p: Predicate, k: GroupKey, fields: Fields)
    reads Parts(p, k)
  {
    && p == Predicate(p.ops, CaseOf(k.params), KeyCaseOf(k.params), k.params.except, Null)
    && p.ops.Keys <= {k.op} * OPERATORS
    && (fields != map[] ==> k.op in p.ops)
    && (k.op in p.ops ==>
          var m := p.ops[k.op].m;
          && m.Keys == fields.Keys
          && (forall f :: f in m ==> View(m[f]) == fields[f])
          && (forall f, g :: f in m && g in m && f != g && m[f].Ref? && m[g].Ref? ==> m[f].o != m[g].o))
  }

  /** The cell holds the predicate of group k and owns everything it is made of. */
  ghost predicate Holds(c: PredicateCell, k: GroupKey, fields: Fields)
    reads c, c.Repr
  {
    c in c.Repr && MapOf(c.p, k.op) <= c.Repr && Parts(c.p, k) <= c.Repr && Shows(c.p, k, fields)
  }

  method NewCell(k: GroupKey) returns (c: PredicateCell)
    ensures fresh(c) && c.Repr == {c} && Holds(c, k, map[])
  {
    c := new PredicateCell();
    Apply(k.params, c);
  }

  /** mergeField on a predicate of Build's own. */
  method MergeShown(c: PredicateCell, k: GroupKey, ghost fields: Fields, field: string, value: AnyValue)
    requires Shows(c.p, k, fields)
    modifies c`p, Parts(c.p, k)
    ensures Shows(c.p, k, Write(fields, Entry(k, field, old(View(value)))))
    ensures fresh(Parts(c.p, k) - old(Parts(c.p, k)))
  {
    assert ObjectAt(c.p, k.op, field) <= ObjectsOf(c.p, k.op);
    assert k.op in c.p.ops ==> Get(fields, field) == Existing(c.p, k.op, field);
    MergeField(c, k.op, field, value);
  }

  method MergeIntoCell(c: PredicateCell, k: GroupKey, ghost fields: Fields, field: string, value: AnyValue)
    requires Holds(c, k, fields)
    modifies c.Repr
    ensures Holds(c, k, Write(fields, Entry(k, field, old(View(value)))))
    ensures fresh(c.Repr - old(c.Repr))
  {
    hide Shows, Write, View;
    MergeShown(c, k, fields, field, value);
    c.Repr := c.Repr + Parts(c.p, k);
  }

  // ----- the builder -----

  datatype FieldMatcher = FieldMatcher(field: string, matcher: Matcher)

  /** The wire stub: its predicates, nil when None, and everything else. */
  datatype Stub = Stub(predicates: Option<seq<Predicate>>, rest: Json)

  function EntryOf(fm: FieldMatcher): Entry
    reads if fm.matcher.value.Ref? then {fm.matcher.value.o} else {}
  {
    Entry(GroupKey(fm.matcher.op, fm.matcher.Params()), fm.field, View(fm.matcher.value))
  }

  function Shared(fs: seq<FieldMatcher>): set<ObjectMap> {
    set i | 0 <= i < |fs| && fs[i].matcher.value.Ref? :: fs[i].matcher.value.o
  }

  function Entries(fs: seq<FieldMatcher>): (es: seq<Entry>)
    reads Shared(fs)
    ensures |es| == |fs| && forall i :: 0 <= i < |fs| ==> es[i] == EntryOf(fs[i])
  {
    if fs == [] then [] else Entries(fs[..|fs| - 1]) + [EntryOf(fs[|fs| - 1])]
  }

  /** The matcher applied to one key of an object field. */
  ghost predicate IsNested(fm: FieldMatcher, field: string, key: string, m: Matcher, j: Json)
    reads if fm.matcher.value.Ref? then {fm.matcher.value.o} else {}
  {
    fm == FieldMatcher(field, m.(value := fm.matcher.value)) && View(fm.matcher.value) == Nested(map[key := j])
  }

  type Cells = map<GroupKey, PredicateCell>

  /** One cell per group, holding the group's field values, none sharing an object, all made of the
      objects in all. */
  ghost predicate Building(groups: Cells, g: map<GroupKey, Fields>, all: set<object>)
    reads all
  {
    && groups.Keys == g.Keys
    && (forall k :: k in groups ==> groups[k] in all && groups[k].Repr <= all && Holds(groups[k], k, g[k]))
    && (forall k, l :: k in groups && l in groups && k != l ==> groups[k].Repr !! groups[l].Repr)
  }

  /** The predicate of a matcher's group, created on first use. */
  method EnsureCell(groups: Cells, ghost g: map<GroupKey, Fields>, k: GroupKey, ghost all: set<object>)
    returns (groups': Cells, ghost all': set<object>)
    requires Building(groups, g, all)
    ensures Building(groups', g[k := Group(g, k)], all') && fresh(all' - all)
  {
    hide Shows, Parts, MapOf;
    groups', all' := groups, all;
    if k !in groups {
      var pred := NewCell(k);
      hide Holds;
      groups' := groups[k := pred];
      all' := all + {pred};
    } else {
      assert g[k := Group(g, k)] == g;
    }
  }

  /** Writes one matcher into its group. */
  method MergeIntoGroup(groups: Cells, ghost g: map<GroupKey, Fields>, k: GroupKey, field: string, value: AnyValue, ghost all: set<object>)
    returns (ghost all': set<object>)
    requires Building(groups, g, all) && k in g
    modifies all
    ensures Building(groups, g[k := Write(g[k], Entry(k, field, old(View(value))))], all') && fresh(all' - all)
  {
    hide Shows, Write, View, Parts, MapOf;
    MergeIntoCell(groups[k], k, g[k], field, value);
    all' := all + groups[k].Repr;
  }

  lemma {:induction false} NothingBuilt()
    ensures Building(map[], Groups([]), {}) && Order([]) == []
  {
  }

  /** The matcher's group, created if need be, takes the matcher. */
  method MergeMatcher(groups: Cells, ghost g: map<GroupKey, Fields>, fm: FieldMatcher, ghost all: set<object>)
    returns (groups': Cells, ghost all': set<object>)
    requires Building(groups, g, all)
    modifies all
    ensures var e := old(EntryOf(fm)); Building(groups', g[e.key := Write(Group(g, e.key), e)], all')
    ensures fresh(all' - all)
  {
    hide Write, View, Building;
    var k := GroupKey(fm.matcher.op, fm.matcher.Params());
    ghost var e := EntryOf(fm);
    ghost var with := g[k := Group(g, k)];
    assert with[k := Write(with[k], e)] == g[k := Write(Group(g, k), e)];
    groups', all' := EnsureCell(groups, g, k, all);
    all' := MergeIntoGroup(groups', with, k, fm.field, fm.matcher.value, all');
  }

  /** One round of Build's loop. */
  method AddMatcher(order: seq<GroupKey>, groups: Cells, ghost es: seq<Entry>, fm: FieldMatcher, ghost all: set<object>)
    returns (order': seq<GroupKey>, groups': Cells, ghost all': set<object>)
    requires Building(groups, Groups(es), all) && order == Order(es)
    modifies all
    ensures Building(groups', Groups(es + [old(EntryOf(fm))]), all') && order' == Order(es + [old(EntryOf(fm))])
    ensures fresh(all' - all)
  {
    var k := GroupKey(fm.matcher.op, fm.matcher.Params());
    GroupsAppend(es, EntryOf(fm));
    OrderListsGroups(es);
    assert groups.Keys == Groups(es).Keys;
    hide Groups, Order, Write, View, Building;
    order' := if k in groups then order else order + [k];
    groups', all' := MergeMatcher(groups, Groups(es), fm, all);
  }

  /** preds are the groups of the matchers, in order and made of maps in owned that no two of them
      share, then the raw predicates. */
  ghost predicate Grouped(preds: seq<Predicate>, es: seq<Entry>, raw: seq<Predicate>, owned: set<object>)
    reads owned
  {
    var o, g := Order(es), Groups(es);
    && |preds| == |o| + |raw| && preds[|o|..] == raw
    && (forall i :: 0 <= i < |o| ==> MapOf(preds[i], o[i].op) <= owned && Parts(preds[i], o[i]) <= owned)
    && (forall i :: 0 <= i < |o| ==> o[i] in g && Shows(preds[i], o[i], g[o[i]]))
    && (forall i, j :: 0 <= j < i < |o| ==> Parts(preds[i], o[i]) !! Parts(preds[j], o[j]))
  }

  /** Build's second loop. */
  method Collect(order: seq<GroupKey>, groups: Cells, ghost es: seq<Entry>, ghost all: set<object>) returns (ps: seq<Predicate>)
    requires Building(groups, Groups(es), all) && order == Order(es)
    ensures Grouped(ps, es, [], all)
  {
    OrderListsGroups(es);
    GroupingIsCanonical(es);
    hide Groups, Order, Shows;
    ps := [];
    for i := 0 to |order|
      invariant |ps| == i && forall j :: 0 <= j < i ==> order[j] in groups && ps[j] == groups[order[j]].p
    {
      ps := ps + [groups[order[i]].p];
    }
  }

  lemma {:induction false} GroupedWithRaw(ps: seq<Predicate>, es: seq<Entry>, raw: seq<Predicate>, owned: set<object>)
    requires Grouped(ps, es, [], owned)
    ensures Grouped(ps + raw, es, raw, owned)
  {
    hide Groups, Order, Shows;
    assert (ps + raw)[|ps|..] == raw;
  }

  class StubBuilder {
    var fields: seq<FieldMatcher>
    var raw: seq<Predicate>
    var stub: Stub

    constructor (method': string, path: string)
      ensures raw == [] && stub == Stub(None, Null) && |fields| == 2
      ensures EntryOf(fields[0]) == Entry(GroupKey("equals", MatcherParams(false, false, false, false, "")), "method", Plain(Str(method')))
      ensures EntryOf(fields[1]) == Entry(GroupKey("equals", MatcherParams(false, false, false, false, "")), "path", Plain(Str(path)))
    {
      fields := [FieldMatcher("method", Matcher("equals", Other(Str(method')), None, None, "")),
                 FieldMatcher("path", Matcher("equals", Other(Str(path)), None, None, ""))];
      raw := [];
      stub := Stub(None, Null);
    }

    method WithField(field: string, m: Matcher)
      modifies this`fields
      ensures fields == old(fields) + [FieldMatcher(field, m)]
    {
      fields := fields + [FieldMatcher(field, m)];
    }

    /** A matcher on one key of an object field; j is the JSON of the matcher's value. */
    method WithNested(field: string, key: string, m: Matcher, j: Json)
      modifies this`fields
      ensures |fields| == |old(fields)| + 1 && fields[..|old(fields)|] == old(fields)
      ensures IsNested(fields[|old(fields)|], field, key, m, j)
      ensures fresh(Shared(fields) - old(Shared(fields)))
    {
      var inner := new ObjectMap(map[key := j]);
      fields := fields + [FieldMatcher(field, m.(value := Ref(inner)))];
    }

    method WithHeader(name: string, m: Matcher, j: Json)
      modifies this`fields
      ensures |fields| == |old(fields)| + 1 && fields[..|old(fields)|] == old(fields)
      ensures IsNested(fields[|old(fields)|], "headers", name, m, j)
      ensures fresh(Shared(fields) - old(Shared(fields)))
    {
      WithNested("headers", name, m, j);
    }

    method WithQuery(name: string, m: Matcher, j: Json)
      modifies this`fields
      ensures |fields| == |old(fields)| + 1 && fields[..|old(fields)|] == old(fields)
      ensures IsNested(fields[|old(fields)|], "query", name, m, j)
      ensures fresh(Shared(fields) - old(Shared(fields)))
    {
      WithNested("query", name, m, j);
    }

    method WithPredicate(ps: seq<Predicate>)
      modifies this`raw
      ensures raw == old(raw) + ps
    {
      raw := raw + ps;
    }

    /** Build changes no object that existed before the call. Its predicates are the groups of the
        matchers, in order and each made of new maps shared with no other, then the raw ones. */
    method Build() returns (s: Stub, ghost preds: seq<Predicate>, ghost owned: set<object>)
      ensures s == stub.(predicates := if preds == [] then stub.predicates else Some(preds))
      ensures Grouped(preds, Entries(fields), raw, owned)
      ensures fresh(owned)
    {
      s := stub;
      ghost var es := Entries(fields);
      var order: seq<GroupKey> := [];
      var groups: Cells := map[];
      ghost var all: set<object> := {};
      NothingBuilt();
      hide Grouped, Building, Groups, Order, View, Parts;
      for i := 0 to |fields|
        invariant Building(groups, Groups(es[..i]), all) && order == Order(es[..i]) && fresh(all)
      {
        assert es[..i + 1] == es[..i] + [EntryOf(fields[i])];
        order, groups, all := AddMatcher(order, groups, es[..i], fields[i], all);
      }
      assert es[..|fields|] == es;
      var ps := Collect(order, groups, es, all);
      GroupedWithRaw(ps, es, raw, all);
      ps := ps + raw;
      if |ps| > 0 {
        s := s.(predicates := Some(ps));
      }
      preds := ps;
      owned := all;
      assert Entries(fields) == es;
      assert Grouped(preds, es, raw, owned);
    }
  }

  // ----- meaning of the wire predicates -----

  /** params is a signature Params() can return. */
  predicate Signature(p: MatcherParams) {
    (p.hasCaseSensitive || !p.caseSensitive) && (p.hasKeyCaseSensitive || !p.keyCaseSensitive)
  }

  /** The test is one of the conjuncts of the wire predicate p: read off its operator maps and its
      parameters alone. */
  ghost predicate Tests(p: Predicate, leaf: Leaf)
    reads MapOf(p, leaf.key.op), ObjectsOf(p, leaf.key.op)
  {
    && Signature(leaf.key.params)
    && p.caseSensitive == CaseOf(leaf.key.params) && p.keyCaseSensitive == KeyCaseOf(leaf.key.params) && p.except == leaf.key.params.except
    && leaf.key.op in p.ops && leaf.field in p.ops[leaf.key.op].m
    && LeafOf(leaf, leaf.key, leaf.field, FieldJson(View(p.ops[leaf.key.op].m[leaf.field])))
  }

  /** The grouped predicates of a built stub make exactly the tests that survive in the matcher
      list, each operator and parameter set applied to the field values the caller gave it. */
  lemma {:induction false} GroupedPredicatesTestSurvivors(preds: seq<Predicate>, es: seq<Entry>, raw: seq<Predicate>, owned: set<object>, leaf: Leaf)
    requires Grouped(preds, es, raw, owned) && forall i :: 0 <= i < |es| ==> Signature(es[i].key.params)
    ensures (exists i :: 0 <= i < |Order(es)| && Tests(preds[i], leaf)) <==> Kept(es, leaf)
  {
    BuildTestsSurvivors(es, leaf);
    OrderListsGroups(es);
    var o, g := Order(es), Groups(es);
    if i :| 0 <= i < |o| && Tests(preds[i], leaf) {
      ShownTests(preds[i], o[i], g[o[i]], leaf);
    }
    if Matchers.Built(es, leaf) {
      var i :| 0 <= i < |o| && o[i] == leaf.key;
      ShownTests(preds[i], o[i], g[o[i]], leaf);
    }
  }

  lemma {:induction false} ShownTests(p: Predicate, k: GroupKey, fields: Fields, leaf: Leaf)
    requires Shows(p, k, fields) && Signature(k.params)
    ensures Tests(p, leaf) <==> leaf.key == k && leaf.field in fields && LeafOf(leaf, k, leaf.field, FieldJson(fields[leaf.field]))
  {
  }

  /** A matcher made by one of the seven constructors reaches the wire under the constructor's own key: some built
      predicate has the field in that map, with the caller's value, and the caller's settings. In an object
      field every key the matcher gave is there. Only a later matcher of the same group on the field can change that. */
  lemma {:induction false} ConstructedIsBuilt(preds: seq<Predicate>, fs: seq<FieldMatcher>, raw: seq<Predicate>, owned: set<object>, i: nat, name: string, v: AnyValue)
    requires Grouped(preds, Entries(fs), raw, owned)
    requires i < |fs| && Made(fs[i].matcher, name, v) && !Superseded(Entries(fs), i)
    ensures exists p :: p in preds && Carries(p, fs[i].matcher, name, fs[i].field, v)
  {
    var es, fm := Entries(fs), fs[i];
    var k := es[i].key;
    MadeIs(fm.matcher, name, v);
    LastMatcherHolds(es, i);
    var p := GroupIsShown(preds, es, raw, owned, i);
    hide Grouped, Order, Groups, Entries, Made, Superseded, Get, Shows;
    assert es[i] == EntryOf(fm);
    ShownCarries(p, Group(Groups(es), k), fm.matcher, name, fm.field, v);
  }

  lemma {:induction false} GroupIsShown(preds: seq<Predicate>, es: seq<Entry>, raw: seq<Predicate>, owned: set<object>, i: nat) returns (p: Predicate)
    requires Grouped(preds, es, raw, owned) && i < |es|
    ensures p in preds && MapOf(p, es[i].key.op) <= owned && Parts(p, es[i].key) <= owned && Shows(p, es[i].key, Group(Groups(es), es[i].key))
  {
    OrderListsGroups(es);
    var o := Order(es);
    assert es[i].key in o;
    var n :| 0 <= n < |o| && o[n] == es[i].key;
    hide Order, Groups, Shows;
    p := preds[n];
  }

  lemma {:induction false} ShownCarries(p: Predicate, fields: Fields, m: Matcher, name: string, field: string, v: AnyValue)
    requires m.op == name && m.value == v && name in OPERATORS && Shows(p, GroupKey(name, m.Params()), fields) && field in fields
    requires v.Other? ==> fields[field] == Plain(v.j)
    requires v.Ref? ==> fields[field].Nested? && forall k :: k in v.o.m ==> k in fields[field].m && fields[field].m[k] == v.o.m[k]
    ensures Carries(p, m, name, field, v)
  {
    ParamsFaithful(m, m);
    assert View(p.ops[name].m[field]) == fields[field];
  }

  /** p holds v in the field under the wire key, as m set it. */
  ghost predicate Carries(p: Predicate, m: Matcher, name: string, field: string, v: AnyValue)
    reads MapOf(p, name), ObjectsOf(p, name), if v.Ref? then {v.o} else {}
  {
    && name in p.ops && field in p.ops[name].m
    && (v.Other? ==> p.ops[name].m[field] == v)
    && (v.Ref? ==> p.ops[name].m[field].Ref? && forall k :: k in v.o.m ==> k in p.ops[name].m[field].o.m && p.ops[name].m[field].o.m[k] == v.o.m[k])
    && p.caseSensitive == m.caseSensitive && p.keyCaseSensitive == m.keyCaseSensitive && p.except == m.except
  }

  /** The only matcher of a builder makes its one predicate: that key, that field, that value. */
  method BuildOne(b: StubBuilder, name: string, v: AnyValue) returns (s: Stub)
    requires |b.fields| == 1 && b.raw == [] && Made(b.fields[0].matcher, name, v)
    ensures s.predicates.Some? && |s.predicates.value| == 1
    ensures var p, m := s.predicates.value[0], b.fields[0].matcher;
            && p.ops.Keys == {name} && p.ops[name].m.Keys == {b.fields[0].field} && View(p.ops[name].m[b.fields[0].field]) == View(v)
            && p.caseSensitive == m.caseSensitive && p.keyCaseSensitive == m.keyCaseSensitive && p.except == m.except
  {
    hide *;
    ghost var fm := b.fields[0];
    MadeIs(fm.matcher, name, v);
    EntryIs(fm);
    ghost var preds, owned;
    s, preds, owned := b.Build();
    OneGroup(Entries(b.fields), preds, owned);
    EntryIs(fm);
    OneShown(preds[0], fm.matcher, fm.field);
  }

  lemma {:induction false} EntryIs(fm: FieldMatcher)
    ensures EntryOf(fm) == Entry(GroupKey(fm.matcher.op, fm.matcher.Params()), fm.field, View(fm.matcher.value))
  {
  }

  lemma {:induction false} OneShown(p: Predicate, m: Matcher, field: string)
    requires m.op in OPERATORS && Shows(p, GroupKey(m.op, m.Params()), map[field := View(m.value)])
    ensures p.ops.Keys == {m.op} && p.ops[m.op].m.Keys == {field} && View(p.ops[m.op].m[field]) == View(m.value)
    ensures p.caseSensitive == m.caseSensitive && p.keyCaseSensitive == m.keyCaseSensitive && p.except == m.except
  {
    ParamsFaithful(m, m);
    assert field in map[field := View(m.value)];
  }

  /** A stub on a method, a path and one header: some predicate of it holds the header's value under "headers"
      in the map of the constructor's own key. */
  method StubOnHeader(method': string, path: string, header: string, m: Matcher, name: string, j: Json) returns (s: Stub)
    requires Constructed(m, name, Other(j))
    ensures s.predicates.Some? && exists p :: p in s.predicates.value && CarriesKey(p, m, name, "headers", header, j)
  {
    hide *;
    var b := new StubBuilder(method', path);
    b.WithHeader(header, m, j);
    ghost var preds, owned;
    s, preds, owned := b.Build();
    HeaderCarried(preds, b.fields, owned, header, m, name, j);
  }

  lemma {:induction false} HeaderCarried(preds: seq<Predicate>, fs: seq<FieldMatcher>, owned: set<object>, header: string, m: Matcher, name: string, j: Json)
    requires |fs| > 0 && IsNested(fs[|fs| - 1], "headers", header, m, j) && Grouped(preds, Entries(fs), [], owned) && Constructed(m, name, Other(j))
    ensures preds != [] && exists p :: p in preds && CarriesKey(p, m, name, "headers", header, j)
  {
    var n := |fs| - 1;
    var v := fs[n].matcher.value;
    HeaderMade(m, name, j, v);
    assert !Superseded(Entries(fs), n);
    ConstructedIsBuilt(preds, fs, [], owned, n, name, v);
    hide Grouped, Entries, Made, Constructed, Superseded;
    var p :| p in preds && Carries(p, fs[n].matcher, name, "headers", v);
    assert CarriesKey(p, m, name, "headers", header, j);
  }

  lemma {:induction false} HeaderMade(m: Matcher, name: string, j: Json, v: AnyValue)
    requires Constructed(m, name, Other(j)) && v.Ref?
    ensures Made(m.(value := v), name, v)
  {
    assert m.(value := v).(value := Other(j)) == m;
  }

  ghost predicate CarriesKey(p: Predicate, m: Matcher, name: string, field: string, key: string, j: Json)
    reads MapOf(p, name), ObjectsOf(p, name)
  {
    && name in p.ops && field in p.ops[name].m && p.ops[name].m[field].Ref?
    && key in p.ops[name].m[field].o.m && p.ops[name].m[field].o.m[key] == j
    && p.caseSensitive == m.caseSensitive && p.keyCaseSensitive == m.keyCaseSensitive && p.except == m.except
  }

  lemma {:induction false} OneGroup(es: seq<Entry>, preds: seq<Predicate>, owned: set<object>)
    requires |es| == 1 && es[0].key.op in OPERATORS && Grouped(preds, es, [], owned)
    ensures |preds| == 1 && Shows(preds[0], es[0].key, map[es[0].field := es[0].value])
  {
    var e := es[0];
    assert es == [] + [e];
    GroupsAppend([], e);
    assert Order(es) == [e.key] && Groups(es)[e.key] == map[e.field := e.value];
    assert Shows(preds[0], Order(es)[0], Groups(es)[Order(es)[0]]);
  }

  /** What such a matcher tests: an object key by key, unless deepEquals compares it whole, and anything else
      as it is. A scalar or a non-empty object makes a test. */
  lemma {:induction false} ConstructedTests(m: Matcher, name: string, v: AnyValue, field: string, leaf: Leaf)
    requires Made(m, name, v)
    ensures var es, x := Entries([FieldMatcher(field, m)]), if v.Ref? then Obj(v.o.m) else v.j;
            && (Written(es, leaf) <==>
                  && leaf.key == GroupKey(name, m.Params()) && leaf.field == field
                  && if x.Obj? && name != "deepEquals"
                     then leaf.member.Some? && leaf.member.value in x.members && leaf.value == x.members[leaf.member.value]
                     else leaf.member.None? && leaf.value == x)
            && (x != Obj(map[]) || name == "deepEquals" ==> exists test :: Written(es, test))
  {
    MadeIs(m, name, v);
    var es, x, k := Entries([FieldMatcher(field, m)]), FieldJson(View(v)), GroupKey(name, m.Params());
    assert es[0] == Entry(k, field, View(v));
    if x.Obj? && name != "deepEquals" {
      if x.members != map[] {
        var n :| n in x.members;
        assert LeafOf(Leaf(k, field, Some(n), x.members[n]), es[0].key, es[0].field, FieldJson(es[0].value));
        assert Written(es, Leaf(k, field, Some(n), x.members[n]));
      }
    } else {
      assert LeafOf(Leaf(k, field, None, x), es[0].key, es[0].field, FieldJson(es[0].value));
      assert Written(es, Leaf(k, field, None, x));
    }
    hide Made, Entries;
    assert LeafOf(leaf, es[0].key, es[0].field, FieldJson(es[0].value)) <==> Written(es, leaf);
  }

  /** For a known operator a grouped predicate fills exactly that operator's map; for any other, none. */
  lemma {:induction false} OneOperatorMap(preds: seq<Predicate>, es: seq<Entry>, raw: seq<Predicate>, owned: set<object>, i: nat)
    requires Grouped(preds, es, raw, owned) && i < |Order(es)|
    ensures var op := Order(es)[i].op;
            preds[i].ops.Keys == if op in {"equals", "deepEquals", "contains", "startsWith", "endsWith", "matches", "exists"} then {op} else {}
  {
    OneKnownMap(preds, es, raw, owned, i);
    hide Grouped, Order;
  }

  lemma {:induction false} OneKnownMap(preds: seq<Predicate>, es: seq<Entry>, raw: seq<Predicate>, owned: set<object>, i: nat)
    requires Grouped(preds, es, raw, owned) && i < |Order(es)|
    ensures preds[i].ops.Keys == if Order(es)[i].op in OPERATORS then {Order(es)[i].op} else {}
  {
    var k := Order(es)[i];
    OrderListsGroups(es);
    assert k in Order(es);
    var j :| 0 <= j < |es| && es[j].key == k;
    if k.op in OPERATORS {
      GroupsHoldSurvivors(es, k, es[j].field);
      assert Touches(es[j], k, es[j].field);
    }
    hide Survivor;
  }

  /** Two calls give the same predicates in maps that have nothing in common. */
  method BuildTwice(b: StubBuilder)
    returns (s: Stub, t: Stub, ghost ps: seq<Predicate>, ghost mine: set<object>, ghost qs: seq<Predicate>, ghost theirs: set<object>)
    ensures s == b.stub.(predicates := if ps == [] then b.stub.predicates else Some(ps))
    ensures t == b.stub.(predicates := if qs == [] then b.stub.predicates else Some(qs))
    ensures Grouped(ps, Entries(b.fields), b.raw, mine) && Grouped(qs, Entries(b.fields), b.raw, theirs)
    ensures mine !! theirs
  {
    hide Grouped;
    ghost var es := Entries(b.fields);
    s, ps, mine := b.Build();
    assert Entries(b.fields) == es;
    t, qs, theirs := b.Build();
    assert Entries(b.fields) == es;
  }
}
