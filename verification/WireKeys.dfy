/** The wire model key by key, on documents: which values each key takes, which of them come back from
    decoding and encoding, and what is dropped. */
module WireKeys {
  import opened Json
  import opened Schema
  import opened Codec
  import opened Prune
  import opened WireCodec
  import opened Idempotence
  import RiftModel

  /** What a key holds on the wire, beside null. */
  datatype Takes =
    | Anything                        // any value, which comes back as it is
    | String                            // a string; "" is as good as absent
    | Truth                            // true, or false, which is as good as absent
    | Switch                          // true or false, and both come back
    | Whole(below: nat, above: nat)   // an integer from -below to above; 0 is as good as absent
    | Reading(most: nat)              // an integer from 0 to most, and 0 comes back
    | Object                          // an object, as it is; {} is as good as absent
    | TextObject                      // an object of strings, a null among them read as ""; {} is as good as absent
    | List                            // an array, as it is; [] is as good as absent
    | Part(part: TypeName)            // an object of a model type, {} included
    | Parts(part: TypeName)           // an array of such objects; [] is as good as absent
    | Held(part: TypeName)            // an object of a model type that is always written

  /** always: the key is written whatever it holds. */
  datatype Row = Row(key: string, takes: Takes, always: bool)

  function Optional(key: string, takes: Takes): Row { Row(key, takes, false) }
  function Always(key: string, takes: Takes): Row { Row(key, takes, true) }

  // ----- the keys of each type's objects -----

  const IMPOSTERS_CONFIG_KEYS: seq<Row> := [Always("imposters", Parts(Imposter))]

  const IMPOSTER_KEYS: seq<Row> := [
    Optional("port", Whole(0, 65535)), Optional("protocol", String), Optional("host", String), Optional("name", String),
    Optional("stubs", Parts(Stub)), Optional("recordRequests", Truth), Optional("recordMatches", Truth),
    Optional("defaultResponse", Part(IsResponse)), Optional("defaultForward", String), Optional("allowCORS", Truth),
    Optional("mutualAuth", Truth), Optional("rejectUnauthorized", Truth), Optional("ca", Anything), Optional("strictBehaviors", Truth),
    Optional("cert", String), Optional("key", String), Optional("_rift", Part(RiftImposter))]

  const STUB_KEYS: seq<Row> := [
    Optional("predicates", Parts(Predicate)), Optional("responses", Parts(StubResponse)), Optional("id", String),
    Optional("scenarioName", String), Optional("required_scenario_state", String), Optional("new_scenario_state", String),
    Optional("route_pattern", String), Optional("space", String), Optional("recorded_from", String), Optional("_verify", Anything)]

  const PREDICATE_KEYS: seq<Row> := [
    Optional("equals", Object), Optional("deepEquals", Object), Optional("contains", Object), Optional("startsWith", Object),
    Optional("endsWith", Object), Optional("matches", Object), Optional("exists", Object), Optional("not", Part(Predicate)),
    Optional("and", Parts(Predicate)), Optional("or", Parts(Predicate)), Optional("inject", String), Optional("caseSensitive", Switch),
    Optional("keyCaseSensitive", Switch), Optional("except", String), Optional("xpath", Part(XPathSelector)),
    Optional("jsonpath", Part(JSONPathSelector))]

  const XPATH_SELECTOR_KEYS: seq<Row> := [Always("selector", String), Optional("ns", TextObject)]

  const JSONPATH_SELECTOR_KEYS: seq<Row> := [Always("selector", String)]

  const IS_RESPONSE_KEYS: seq<Row> := [Optional("statusCode", Anything), Optional("headers", Object), Optional("body", Anything), Optional("_mode", String)]

  const PROXY_RESPONSE_KEYS: seq<Row> := [
    Always("to", String), Optional("mode", String), Optional("predicateGenerators", List), Optional("addWaitBehavior", Truth),
    Optional("addDecorateBehavior", String), Optional("injectHeaders", TextObject), Optional("pathRewrite", Part(PathRewrite)),
    Optional("key", String), Optional("cert", String)]

  const PATH_REWRITE_KEYS: seq<Row> := [Always("from", String), Always("to", String)]

  const STUB_RESPONSE_KEYS: seq<Row> := [
    Optional("is", Part(IsResponse)), Optional("proxy", Part(ProxyResponse)), Optional("inject", String), Optional("fault", String),
    Optional("_behaviors", Part(Behaviors)), Optional("_rift", Part(RiftResponse)), Optional("statusCode", Anything),
    Optional("headers", Object), Optional("body", Anything)]

  const BEHAVIORS_KEYS: seq<Row> := [
    Optional("wait", Anything), Optional("repeat", Whole(9223372036854775808, 9223372036854775807)), Optional("decorate", String),
    Optional("shellTransform", Anything), Optional("copy", Anything), Optional("lookup", Anything)]

  const RIFT_IMPOSTER_KEYS: seq<Row> := [
    Optional("flowState", Anything), Optional("metrics", Anything), Optional("proxy", Anything), Optional("scriptEngine", Anything),
    Optional("scripts", Object)]

  const RIFT_RESPONSE_KEYS: seq<Row> := [Optional("fault", Anything), Optional("script", Anything), Optional("templated", Truth)]

  const RECORDED_REQUEST_KEYS: seq<Row> := [
    Optional("request_from", String), Always("method", String), Always("path", String), Optional("query", Object), Optional("headers", Object),
    Optional("body", Anything), Optional("_mode", String), Optional("timestamp", String),
    Optional("status", Whole(9223372036854775808, 9223372036854775807)), Optional("latencyMs", Reading(18446744073709551615))]

  const INTERCEPT_RULE_KEYS: seq<Row> := [Optional("host", String), Optional("predicates", Parts(Predicate)), Always("action", Held(InterceptAction))]

  const INTERCEPT_ACTION_KEYS: seq<Row> := [Optional("serve", Part(IsResponse)), Optional("forward", Part(InterceptTarget))]

  const INTERCEPT_TARGET_KEYS: seq<Row> := [Always("port", Whole(0, 65535))]

  function Rows(t: TypeName): seq<Row> {
    match t
    case ImpostersConfig => IMPOSTERS_CONFIG_KEYS
    case Imposter => IMPOSTER_KEYS
    case Stub => STUB_KEYS
    case Predicate => PREDICATE_KEYS
    case XPathSelector => XPATH_SELECTOR_KEYS
    case JSONPathSelector => JSONPATH_SELECTOR_KEYS
    case IsResponse => IS_RESPONSE_KEYS
    case ProxyResponse => PROXY_RESPONSE_KEYS
    case PathRewrite => PATH_REWRITE_KEYS
    case StubResponse => STUB_RESPONSE_KEYS
    case Behaviors => BEHAVIORS_KEYS
    case RiftImposter => RIFT_IMPOSTER_KEYS
    case RiftResponse => RIFT_RESPONSE_KEYS
    case RecordedRequest => RECORDED_REQUEST_KEYS
    case InterceptRule => INTERCEPT_RULE_KEYS
    case InterceptAction => INTERCEPT_ACTION_KEYS
    case InterceptTarget => INTERCEPT_TARGET_KEYS
  }

  /** Objects of these types lose every other key. */
  predicate LosesOthers(t: TypeName) {
    t == XPathSelector || t == JSONPathSelector || t == PathRewrite || t == InterceptAction || t == InterceptTarget
  }

  function KeysOf(rows: seq<Row>): set<string> { set i | 0 <= i < |rows| :: rows[i].key }

  function RowOf(rows: seq<Row>, k: string): (r: Row)
    requires k in KeysOf(rows)
    ensures r in rows && r.key == k
  {
    var last := rows[|rows| - 1];
    if last.key == k then last
    else
      assert rows == rows[..|rows| - 1] + [last];
      RowOf(rows[..|rows| - 1], k)
  }

  // ----- spellings -----

  /** One letter in two cases, as encoding/json folds them. */
  predicate TwoCases(a: char, b: char) {
    || ('a' <= a <= 'z' && b == a - 'a' + 'A')
    || ((a == 's' || a == 'S') && b == '\U{017F}')
    || ((a == 'k' || a == 'K') && b == '\U{212A}')
  }

  predicate SameLetters(a: string, b: string) {
    |a| == |b| && forall i :: 0 <= i < |a| ==> a[i] == b[i] || TwoCases(a[i], b[i]) || TwoCases(b[i], a[i])
  }

  /** The member n of an object is read as its key k. */
  predicate ReadAs(t: TypeName, n: string, k: string) { n == k || (n !in KeysOf(Rows(t)) && SameLetters(n, k)) }

  // ----- what decodes and what comes back -----

  predicate IsWhole(j: Json, below: nat, above: nat) { j.Num? && j.r == j.r.Floor as real && 0 - below <= j.r.Floor <= above }

  /** The values besides null that decode. */
  predicate Fits(takes: Takes, j: Json)
    decreases j, 1
  {
    match takes
    case Anything => true
    case String => j.Str?
    case Truth => j.Bool?
    case Switch => j.Bool?
    case Whole(below, above) => IsWhole(j, below, above)
    case Reading(most) => IsWhole(j, 0, most)
    case Object => j.Obj?
    case TextObject => j.Obj? && forall n :: n in j.members ==> j.members[n].Str? || j.members[n].Null?
    case List => j.Arr?
    case Part(t) => Decodes(t, j)
    case Parts(t) => j.Arr? && forall i :: 0 <= i < |j.items| ==> Decodes(t, j.items[i])
    case Held(t) => Decodes(t, j)
  }

  /** The documents that decode as t. */
  predicate Decodes(t: TypeName, d: Json)
    decreases d, 0
  {
    d.Null? ||
    (d.Obj? && forall n, k | n in d.members && k in KeysOf(Rows(t)) && ReadAs(t, n, k) ::
       d.members[n].Null? || Fits(RowOf(Rows(t), k).takes, d.members[n]))
  }

  /** The value is as good as absent. */
  predicate Dropped(row: Row, j: Json) {
    !row.always &&
    match row.takes
    case String => j == Str("")
    case Truth => j == Bool(false)
    case Whole(_, _) => j == Num(0.0)
    case Object => j == Obj(map[])
    case TextObject => j == Obj(map[])
    case List => j == Arr([])
    case Parts(_) => j == Arr([])
    case _ => false
  }

  /** What decoding as t and encoding makes of a document. */
  ghost function Recoded(late: Order, t: TypeName, d: Json): Json {
    var v := DecodeStruct(ModelRegistry(late), RiftModel.Model(t), d);
    if v.Some? then Encode(v.value) else Null
  }

  /** What a value comes back as. */
  ghost function Returned(late: Order, takes: Takes, j: Json): Json {
    match takes
    case TextObject => if j.Obj? then Obj(map n | n in j.members :: if j.members[n].Null? then Str("") else j.members[n]) else j
    case Part(t) => Recoded(late, t, j)
    case Held(t) => Recoded(late, t, j)
    case Parts(t) => if j.Arr? then Arr(seq(|j.items|, i requires 0 <= i < |j.items| => Recoded(late, t, j.items[i]))) else j
    case _ => j
  }

  /** What is written for a key without a value, if it is always there. */
  ghost function Blank(late: Order, takes: Takes): Json {
    match takes
    case String => Str("")
    case Truth => Bool(false)
    case Whole(_, _) => Num(0.0)
    case Held(t) => Recoded(late, t, Obj(map[]))
    case _ => Null
  }

  /** What is written for a key that holds j, or for one that is absent when j is null. */
  ghost function Written(late: Order, row: Row, j: Json): Option<Json> {
    if j.Null? then if row.always || row.takes.Held? then Some(Blank(late, row.takes)) else None
    else if Dropped(row, j) then None
    else Some(Returned(late, row.takes, j))
  }

  predicate Holds(m: map<string, Json>, k: string, j: Option<Json>) { if j.Some? then k in m && m[k] == j.value else k !in m }

  // ----- the field tables say the same -----

  function KindOf(takes: Takes): Kind {
    match takes
    case Anything => KAny
    case String => KText
    case Truth => KFlag
    case Switch => KFlagPtr
    case Whole(below, above) => KInt(below, above)
    case Reading(most) => KIntPtr(0, most)
    case Object => KAnyMap
    case TextObject => KTextMap
    case List => KAnySlice
    case Part(t) => KPointer(t)
    case Parts(t) => KSlice(t)
    case Held(t) => KInline(RiftModel.Model(t))
  }

  predicate Tags(decls: seq<StructField>, rows: seq<Row>) {
    && |rows| <= |decls|
    && (forall i :: 0 <= i < |rows| ==> decls[i].tag == Wire(rows[i].key, !rows[i].always) && decls[i].tag.name != "")
    && (forall i :: |rows| <= i < |decls| ==> decls[i].tag.Dash?)
  }

  predicate Kinds(decls: seq<StructField>, rows: seq<Row>) {
    |rows| <= |decls| && forall i :: 0 <= i < |rows| ==> decls[i].kind == KindOf(rows[i].takes)
  }

  /** The same for a stretch of a long table. */
  predicate KindsFrom(decls: seq<StructField>, rows: seq<Row>, from: nat, to: nat) {
    to <= |rows| <= |decls| && forall i :: from <= i < to ==> decls[i].kind == KindOf(rows[i].takes)
  }

  predicate Tabulated(decls: seq<StructField>, rows: seq<Row>) { Tags(decls, rows) && Kinds(decls, rows) }

  lemma {:induction false} TabulatedFields(decls: seq<StructField>, rows: seq<Row>, k: string)
    requires Tabulated(decls, rows)
    ensures k in FieldMap(decls) <==> k in KeysOf(rows)
    ensures k in KeysOf(rows) ==> FieldMap(decls)[k] == Field(!RowOf(rows, k).always, KindOf(RowOf(rows, k).takes))
    decreases |decls|
  {
    if decls != [] {
      var n := |decls| - 1;
      hide KindOf;
      if |rows| <= n {
        TabulatedFields(decls[..n], rows, k);
      } else {
        assert rows == rows[..n] + [rows[n]];
        TabulatedFields(decls[..n], rows[..n], k);
        assert KeysOf(rows) == KeysOf(rows[..n]) + {rows[n].key};
      }
    }
  }

  lemma ImposterTags()
    ensures Tags(RiftModel.IMPOSTER, IMPOSTER_KEYS)
  {
    hide FieldMap, RiftModel.Model, RiftModel.Decls;
  }

  lemma StubTags()
    ensures Tags(RiftModel.STUB, STUB_KEYS)
    ensures Tags(RiftModel.IMPOSTERS_CONFIG, IMPOSTERS_CONFIG_KEYS)
    ensures Tags(RiftModel.XPATH_SELECTOR, XPATH_SELECTOR_KEYS)
    ensures Tags(RiftModel.JSONPATH_SELECTOR, JSONPATH_SELECTOR_KEYS)
    ensures Tags(RiftModel.IS_RESPONSE, IS_RESPONSE_KEYS)
    ensures Tags(RiftModel.PATH_REWRITE, PATH_REWRITE_KEYS)
  {
    hide FieldMap, RiftModel.Model, RiftModel.Decls;
  }

  lemma PredicateTags()
    ensures Tags(RiftModel.PREDICATE, PREDICATE_KEYS)
  {
    hide FieldMap, RiftModel.Model, RiftModel.Decls;
  }

  lemma ResponseTags()
    ensures Tags(RiftModel.STUB_RESPONSE, STUB_RESPONSE_KEYS)
    ensures Tags(RiftModel.RIFT_RESPONSE, RIFT_RESPONSE_KEYS)
    ensures Tags(RiftModel.PROXY_RESPONSE, PROXY_RESPONSE_KEYS)
  {
    hide FieldMap, RiftModel.Model, RiftModel.Decls;
  }

  lemma RecordTags()
    ensures Tags(RiftModel.RECORDED_REQUEST, RECORDED_REQUEST_KEYS)
    ensures Tags(RiftModel.INTERCEPT_TARGET, INTERCEPT_TARGET_KEYS)
    ensures Tags(RiftModel.BEHAVIORS, BEHAVIORS_KEYS)
    ensures Tags(RiftModel.RIFT_IMPOSTER, RIFT_IMPOSTER_KEYS)
    ensures Tags(RiftModel.INTERCEPT_RULE, INTERCEPT_RULE_KEYS)
    ensures Tags(RiftModel.INTERCEPT_ACTION, INTERCEPT_ACTION_KEYS)
  {
    hide FieldMap, RiftModel.Model, RiftModel.Decls;
  }

  lemma FirstImposterKinds()
    ensures KindsFrom(RiftModel.IMPOSTER, IMPOSTER_KEYS, 0, 9)
  {
    hide FieldMap, RiftModel.Model, RiftModel.Decls;
  }

  lemma LastImposterKinds()
    ensures KindsFrom(RiftModel.IMPOSTER, IMPOSTER_KEYS, 9, 17)
  {
    hide FieldMap, RiftModel.Model, RiftModel.Decls;
  }

  lemma ImposterKinds()
    ensures Kinds(RiftModel.IMPOSTER, IMPOSTER_KEYS)
  {
    FirstImposterKinds();
    LastImposterKinds();
    hide FieldMap, RiftModel.Model, RiftModel.Decls, KindOf;
    assert |IMPOSTER_KEYS| == 17;
  }

  lemma StubKinds()
    ensures Kinds(RiftModel.STUB, STUB_KEYS)
    ensures Kinds(RiftModel.IMPOSTERS_CONFIG, IMPOSTERS_CONFIG_KEYS)
    ensures Kinds(RiftModel.XPATH_SELECTOR, XPATH_SELECTOR_KEYS)
    ensures Kinds(RiftModel.JSONPATH_SELECTOR, JSONPATH_SELECTOR_KEYS)
    ensures Kinds(RiftModel.IS_RESPONSE, IS_RESPONSE_KEYS)
    ensures Kinds(RiftModel.PATH_REWRITE, PATH_REWRITE_KEYS)
  {
    hide FieldMap, RiftModel.Model, RiftModel.Decls;
  }

  lemma FirstPredicateKinds()
    ensures KindsFrom(RiftModel.PREDICATE, PREDICATE_KEYS, 0, 8)
  {
    hide FieldMap, RiftModel.Model, RiftModel.Decls;
  }

  lemma LastPredicateKinds()
    ensures KindsFrom(RiftModel.PREDICATE, PREDICATE_KEYS, 8, 16)
  {
    hide FieldMap, RiftModel.Model, RiftModel.Decls;
  }

  lemma PredicateKinds()
    ensures Kinds(RiftModel.PREDICATE, PREDICATE_KEYS)
  {
    FirstPredicateKinds();
    LastPredicateKinds();
    hide FieldMap, RiftModel.Model, RiftModel.Decls, KindOf;
    assert |PREDICATE_KEYS| == 16;
  }

  lemma ResponseKinds()
    ensures Kinds(RiftModel.STUB_RESPONSE, STUB_RESPONSE_KEYS)
    ensures Kinds(RiftModel.RIFT_RESPONSE, RIFT_RESPONSE_KEYS)
    ensures Kinds(RiftModel.PROXY_RESPONSE, PROXY_RESPONSE_KEYS)
  {
    hide FieldMap, RiftModel.Model, RiftModel.Decls;
  }

  lemma RecordKinds()
    ensures Kinds(RiftModel.RECORDED_REQUEST, RECORDED_REQUEST_KEYS)
    ensures Kinds(RiftModel.INTERCEPT_TARGET, INTERCEPT_TARGET_KEYS)
    ensures Kinds(RiftModel.BEHAVIORS, BEHAVIORS_KEYS)
    ensures Kinds(RiftModel.RIFT_IMPOSTER, RIFT_IMPOSTER_KEYS)
    ensures Kinds(RiftModel.INTERCEPT_RULE, INTERCEPT_RULE_KEYS)
    ensures Kinds(RiftModel.INTERCEPT_ACTION, INTERCEPT_ACTION_KEYS)
  {
    RiftModel.InterceptActionIs();
    hide FieldMap, RiftModel.Model, RiftModel.Decls;
  }

  lemma ModelTabulated(t: TypeName)
    ensures Tabulated(RiftModel.Decls(t), Rows(t))
  {
    hide FieldMap, Tags, Kinds;
    ImposterTags();
    StubTags();
    PredicateTags();
    ResponseTags();
    RecordTags();
    ImposterKinds();
    StubKinds();
    PredicateKinds();
    ResponseKinds();
    RecordKinds();
  }

  /** The field of each key, and which objects keep the others. */
  lemma ModelField(t: TypeName, k: string)
    ensures k in RiftModel.Model(t).fields <==> k in KeysOf(Rows(t))
    ensures k in KeysOf(Rows(t)) ==>
              RiftModel.Model(t).fields[k] == Field(!RowOf(Rows(t), k).always, KindOf(RowOf(Rows(t), k).takes))
    ensures RiftModel.Model(t).open <==> !LosesOthers(t)
  {
    ModelTabulated(t);
    hide RiftModel.Decls, Rows, FieldMap;
    TabulatedFields(RiftModel.Decls(t), Rows(t), k);
  }

  lemma VariantIsSameLetters(t: TypeName, n: string, k: string)
    ensures IsVariant(RiftModel.Model(t).fields.Keys, n, k) <==> n !in KeysOf(Rows(t)) && SameLetters(n, k)
  {
    ModelField(t, n);
    hide RiftModel.Model, Rows;
    assert forall a, b :: FoldChar(a) == FoldChar(b) <==> a == b || TwoCases(a, b) || TwoCases(b, a);
    hide FoldChar, TwoCases;
    if Fold(n) == Fold(k) {
      forall i | 0 <= i < |n| ensures n[i] == k[i] || TwoCases(n[i], k[i]) || TwoCases(k[i], n[i]) {
        assert Fold(n)[i] == Fold(k)[i];
      }
    }
  }

  // ----- decoding -----

  lemma {:induction false} FitsIffReadable(takes: Takes, j: Json)
    requires !j.Null?
    ensures Fits(takes, j) <==> Readable(RiftModel.Model, KindOf(takes), j)
    decreases j, 1
  {
    hide RiftModel.Model, Rows;
    match takes
    case Part(t) => DecodesIffReadable(t, j);
    case Held(t) => DecodesIffReadable(t, j);
    case Parts(t) =>
      if j.Arr? {
        forall i | 0 <= i < |j.items| ensures Decodes(t, j.items[i]) <==> ReadableStruct(RiftModel.Model, RiftModel.Model(t), j.items[i]) {
          DecodesIffReadable(t, j.items[i]);
        }
      }
    case _ =>
  }

  lemma {:induction false} MemberFits(t: TypeName, o: map<string, Json>, n: string, k: string)
    requires n in o
    ensures k in KeysOf(Rows(t)) <==> k in RiftModel.Model(t).fields
    ensures ReadAs(t, n, k) <==> n == k || IsVariant(RiftModel.Model(t).fields.Keys, n, k)
    ensures k in KeysOf(Rows(t)) ==>
              (o[n].Null? || Fits(RowOf(Rows(t), k).takes, o[n]) <==> Readable(RiftModel.Model, RiftModel.Model(t).fields[k].kind, o[n]))
    decreases o[n], 2
  {
    hide RiftModel.Model, Rows, Fits, KindOf, KeysOf, RowOf, SameLetters, IsVariant;
    ModelField(t, k);
    VariantIsSameLetters(t, n, k);
    if k in KeysOf(Rows(t)) && !o[n].Null? { FitsIffReadable(RowOf(Rows(t), k).takes, o[n]); }
  }

  lemma {:induction false} DecodesIffReadable(t: TypeName, d: Json)
    ensures Decodes(t, d) <==> ReadableStruct(RiftModel.Model, RiftModel.Model(t), d)
    decreases d, 0
  {
    hide RiftModel.Model, Rows, Fits, Readable, KeysOf, RowOf, IsVariant, ReadAs;
    if d.Obj? {
      var o, s := d.members, RiftModel.Model(t);
      if Decodes(t, d) {
        forall f | f in s.fields ensures ReadableField(RiftModel.Model, s, o, f) {
          forall n | n in o && (n == f || IsVariant(s.fields.Keys, n, f)) ensures Readable(RiftModel.Model, s.fields[f].kind, o[n]) {
            MemberFits(t, o, n, f);
          }
        }
      }
      if ReadableStruct(RiftModel.Model, s, d) {
        forall n, k | n in o && k in KeysOf(Rows(t)) && ReadAs(t, n, k) ensures o[n].Null? || Fits(RowOf(Rows(t), k).takes, o[n]) {
          MemberFits(t, o, n, k);
          assert ReadableField(RiftModel.Model, s, o, k);
        }
      }
    }
  }

  /** A document decodes as t exactly when every member that is read as one of t's keys fits it. */
  lemma DecodesIffFits(t: TypeName, late: Order, d: Json)
    ensures DecodeStruct(ModelRegistry(late), RiftModel.Model(t), d).Some? <==> Decodes(t, d)
  {
    hide RiftModel.Model, Decodes, ReadableStruct, DecodeStruct;
    var reg, s := ModelRegistry(late), RiftModel.Model(t);
    Codec.DecodesIffReadable(reg, s, ZeroStruct(s), d);
    DecodeIsRead(reg, s, d);
    DecodesIffReadable(t, d);
  }

  // ----- what comes back -----

  /** Nothing in the object but k itself is read as its key k. */
  ghost predicate SpelledAlone(t: TypeName, o: map<string, Json>, k: string) { forall n :: n in o && ReadAs(t, n, k) ==> n == k }

  lemma AloneIsNotRespelled(t: TypeName, o: map<string, Json>, k: string)
    requires k in KeysOf(Rows(t))
    ensures SpelledAlone(t, o, k) <==> !Respelled(RiftModel.Model(t), o, k)
  {
    hide RiftModel.Model, Rows, KeysOf, IsVariant, SameLetters;
    forall n ensures ReadAs(t, n, k) <==> n == k || IsVariant(RiftModel.Model(t).fields.Keys, n, k) { VariantIsSameLetters(t, n, k); }
    ModelField(t, k);
    assert !IsVariant(RiftModel.Model(t).fields.Keys, k, k) by { VariantIsSameLetters(t, k, k); }
  }

  lemma DroppedIsVacant(row: Row, j: Json)
    requires !j.Null?
    ensures Dropped(row, j) <==> !row.always && Vacant(KindOf(row.takes), j)
  {
    hide RiftModel.Model;
  }

  lemma RecodedIsPruned(late: Order, t: TypeName, d: Json)
    requires Decodes(t, d)
    ensures Recoded(late, t, d) == Pruned(ModelRegistry(late), RiftModel.Model(t), d)
  {
    DecodesIffFits(t, late, d);
    EncodeDecode(ModelRegistry(late), RiftModel.Model(t), d);
    hide *;
    assert Recoded(late, t, d) == Encode(DecodeStruct(ModelRegistry(late), RiftModel.Model(t), d).value) by { RecodedIs(late, t, d); }
  }

  lemma RecodedIs(late: Order, t: TypeName, d: Json)
    ensures var v := DecodeStruct(ModelRegistry(late), RiftModel.Model(t), d);
            v.Some? ==> Recoded(late, t, d) == Encode(v.value)
  {
    hide DecodeStruct, RiftModel.Model, Encode;
  }

  /** A value that fits comes back as the key says. */
  lemma {:induction false} ReturnedIsPruned(late: Order, takes: Takes, j: Json)
    requires !j.Null? && Fits(takes, j)
    ensures PrunedKind(ModelRegistry(late), KindOf(takes), j) == Returned(late, takes, j)
  {
    hide RiftModel.Model, Recoded, PruneStruct, Decodes;
    match takes
    case Object => assert map[] + j.members == j.members;
    case TextObject => assert map[] + Blanked(j.members) == Blanked(j.members);
    case Part(t) => RecodedIsPruned(late, t, j);
    case Held(t) => RecodedIsPruned(late, t, j);
    case Parts(t) =>
      forall i | 0 <= i < |j.items| ensures Recoded(late, t, j.items[i]) == Pruned(ModelRegistry(late), RiftModel.Model(t), j.items[i]) {
        RecodedIsPruned(late, t, j.items[i]);
      }
      hide Pruned;
      assert PrunedKind(ModelRegistry(late), KindOf(takes), j).items == Returned(late, takes, j).items;
    case _ =>
  }

  lemma BlankIsZero(late: Order, takes: Takes)
    ensures ZeroJson(KindOf(takes)) == Blank(late, takes)
  {
    hide RiftModel.Model, Recoded;
    if takes.Held? {
      var reg, s := ModelRegistry(late), RiftModel.Model(takes.part);
      assert Decodes(takes.part, Obj(map[]));
      RecodedIsPruned(late, takes.part, Obj(map[]));
      EmptyPruned(reg, s);
    }
  }

  lemma EmptyPruned(reg: Registry, s: Struct)
    ensures Pruned(reg, s, Obj(map[])) == ZeroObject(s)
  {
    var p := Pruned(reg, s, Obj(map[]));
    PrunedMember(reg, s, ZeroObject(s), map[], "");
    forall k ensures k in p.members <==> k in ZeroObject(s).members ensures k in p.members ==> p.members[k] == ZeroObject(s).members[k] {
      PrunedMember(reg, s, ZeroObject(s), map[], k);
      if k in s.fields {
        HeldZero(s, k);
        SoleEntry(reg, s, ZeroObject(s), map[], k);
        EncodeZero(s.fields[k].kind);
      }
      hide PruneStruct, Entry, Vacant, ZeroJson;
    }
    assert p.members == ZeroObject(s).members;
  }

  /** A field that comes to what j alone says is written as j alone is. */
  lemma WrittenIsPruned(late: Order, row: Row, j: Json)
    requires j.Null? || Fits(row.takes, j)
    ensures var kind, e := KindOf(row.takes), PrunedKind(ModelRegistry(late), KindOf(row.takes), j);
            Written(late, row, j) == if !row.always && Vacant(kind, e) then None else Some(e)
  {
    var reg, kind := ModelRegistry(late), KindOf(row.takes);
    hide RiftModel.Model;
    BlankIsZero(late, row.takes);
    EncodeZero(kind);
    if !j.Null? {
      FitsIffReadable(row.takes, j);
      ReturnedIsPruned(late, row.takes, j);
      VacantPruned(reg, kind, j);
      DroppedIsVacant(row, j);
    }
    hide PruneStruct, Returned, Blank, Dropped, Fits, Vacant, ZeroJson, ZeroObject;
  }

  lemma FieldWritten(late: Order, t: TypeName, o: map<string, Json>, k: string, j: Json)
    requires k in KeysOf(Rows(t)) && Decodes(t, Obj(o)) && (j.Null? || Fits(RowOf(Rows(t), k).takes, j))
    requires k in RiftModel.Model(t).fields
    requires var reg, s := ModelRegistry(late), RiftModel.Model(t);
             Entry(reg, s, ZeroObject(s), o, k) == PrunedKind(reg, KindOf(RowOf(Rows(t), k).takes), j)
    ensures Recoded(late, t, Obj(o)).Obj? && Holds(Recoded(late, t, Obj(o)).members, k, Written(late, RowOf(Rows(t), k), j))
  {
    var reg, s := ModelRegistry(late), RiftModel.Model(t);
    hide RiftModel.Model, Rows, KeysOf, RowOf, KindOf, Decodes, Fits, Entry, PruneStruct, PruneKind, Recoded, Written, Vacant;
    ModelField(t, k);
    RecodedIsPruned(late, t, Obj(o));
    PrunedMember(reg, s, ZeroObject(s), o, k);
    WrittenIsPruned(late, RowOf(Rows(t), k), j);
  }

  /** A key spelled in one way is written as its value asks; the keys a type does not have stay as they are or go. */
  lemma RecodedKey(t: TypeName, late: Order, o: map<string, Json>, k: string)
    requires Decodes(t, Obj(o))
    ensures Recoded(late, t, Obj(o)).Obj?
    ensures k in KeysOf(Rows(t)) && SpelledAlone(t, o, k) ==>
              Holds(Recoded(late, t, Obj(o)).members, k, Written(late, RowOf(Rows(t), k), if k in o then o[k] else Null))
    ensures k !in KeysOf(Rows(t)) ==> Holds(Recoded(late, t, Obj(o)).members, k, if k in o && !LosesOthers(t) then Some(o[k]) else None)
  {
    var reg, s := ModelRegistry(late), RiftModel.Model(t);
    ModelField(t, k);
    if k in KeysOf(Rows(t)) {
      assert k in o ==> ReadAs(t, k, k);
      assert k in o ==> o[k].Null? || Fits(RowOf(Rows(t), k).takes, o[k]);
      hide RiftModel.Model, Rows, KeysOf, RowOf, KindOf, Decodes, Fits, SpelledAlone, Recoded, Written, Holds, LosesOthers;
      AloneIsNotRespelled(t, o, k);
      if SpelledAlone(t, o, k) {
        HeldZero(s, k);
        SoleEntry(reg, s, ZeroObject(s), o, k);
        hide Entry, PruneStruct, Respelled;
        assert k !in o ==> PrunedKind(reg, s.fields[k].kind, Null) == ZeroJson(s.fields[k].kind);
        FieldWritten(late, t, o, k, if k in o then o[k] else Null);
      }
    }
    hide RiftModel.Model, Rows, KeysOf, RowOf, Decodes, SpelledAlone, Written, LosesOthers, Entry, Survives, Recoded, Holds;
    RecodedIsPruned(late, t, Obj(o));
    OtherKey(reg, s, o, k);
  }

  lemma OtherKey(reg: Registry, s: Struct, o: map<string, Json>, k: string)
    ensures Pruned(reg, s, Obj(o)).Obj?
    ensures k !in s.fields ==> Holds(Pruned(reg, s, Obj(o)).members, k, if k in o && s.open then Some(o[k]) else None)
  {
    PrunedMember(reg, s, ZeroObject(s), o, k);
    hide Entry, PruneStruct;
  }

  // ----- two spellings -----

  /** A null read over a value leaves it alone. */
  predicate Keeps(t: Takes) { t.String? || t.Truth? || t.Whole? || (t.Held? && LosesOthers(t.part)) }

  /** A second value replaces the first whole. */
  predicate Replaces(t: Takes) { !t.Object? && !t.TextObject? && !((t.Held? || t.Part?) && LosesOthers(t.part)) }

  /** What a key comes to when first and then last are read, where one of them settles it. */
  function Settled(takes: Takes, first: Json, last: Json): Option<Json> {
    if last.Null? then Some(if Keeps(takes) then first else Null)
    else if first.Null? || Replaces(takes) then Some(last)
    else if (takes.Object? || takes.TextObject?) && first.Obj? && last.Obj? then Some(Obj(first.members + last.members))
    else None
  }

  lemma SettledIsPruned(late: Order, takes: Takes, first: Json, last: Json)
    requires (first.Null? || Fits(takes, first)) && (last.Null? || Fits(takes, last)) && Settled(takes, first, last).Some?
    ensures var reg, kind, j := ModelRegistry(late), KindOf(takes), Settled(takes, first, last).value;
            && PruneKind(reg, kind, PrunedKind(reg, kind, first), last) == PrunedKind(reg, kind, j)
            && (j.Null? || Fits(takes, j))
  {
    if takes.Part? || takes.Held? { ModelField(takes.part, ""); }
    if last.Null? {
      NullReadLast(late, takes, first);
    } else if first.Null? {
      NullReadFirst(late, takes, last);
    } else if Replaces(takes) {
      LastReplaces(late, takes, first, last);
    } else {
      United(first.members, last.members);
    }
    hide RiftModel.Model, PruneStruct, Rows, KeysOf, Decodes;
  }

  lemma United(m: map<string, Json>, n: map<string, Json>)
    ensures map[] + m == m && map[] + (m + n) == m + n
    ensures map[] + Blanked(m) == Blanked(m) && map[] + Blanked(m + n) == Blanked(m + n) && Blanked(m) + Blanked(n) == Blanked(m + n)
  {
  }

  lemma NullReadLast(late: Order, takes: Takes, first: Json)
    requires takes.Held? ==> (RiftModel.Model(takes.part).open <==> !LosesOthers(takes.part))
    ensures var reg, kind := ModelRegistry(late), KindOf(takes);
            PruneKind(reg, kind, PrunedKind(reg, kind, first), Null) == PrunedKind(reg, kind, if Keeps(takes) then first else Null)
  {
    hide RiftModel.Model, PruneStruct, LosesOthers;
  }

  lemma NullReadFirst(late: Order, takes: Takes, last: Json)
    ensures var reg, kind := ModelRegistry(late), KindOf(takes);
            PruneKind(reg, kind, PrunedKind(reg, kind, Null), last) == PrunedKind(reg, kind, last)
  {
    hide RiftModel.Model, PruneStruct;
  }

  lemma LastReplaces(late: Order, takes: Takes, first: Json, last: Json)
    requires Replaces(takes) && !last.Null?
    requires takes.Part? || takes.Held? ==> (RiftModel.Model(takes.part).open <==> !LosesOthers(takes.part))
    ensures var reg, kind := ModelRegistry(late), KindOf(takes);
            PruneKind(reg, kind, PrunedKind(reg, kind, first), last) == PrunedKind(reg, kind, last)
  {
    var reg, kind := ModelRegistry(late), KindOf(takes);
    hide RiftModel.Model, PruneStruct, LosesOthers;
    if !takes.String? && !takes.Truth? && !takes.Whole? { OverwritesAll(reg, kind, PrunedKind(reg, kind, first), last); }
  }

  /** A key k of the type and one other spelling n of it are read in the order of the text: null leaves a string,
      a flag, a number or a closed object alone and empties every other key; otherwise the last value counts,
      except that free-form objects and objects of strings are united. */
  lemma SpelledTwice(t: TypeName, late: Order, o: map<string, Json>, k: string, n: string)
    requires Decodes(t, Obj(o)) && k in KeysOf(Rows(t)) && k in o && n in o && n != k
    requires forall m :: m in o ==> (ReadAs(t, m, k) <==> m == k || m == n)
    requires var takes := RowOf(Rows(t), k).takes; (if late(o, n, k) then Settled(takes, o[k], o[n]) else Settled(takes, o[n], o[k])).Some?
    ensures var row := RowOf(Rows(t), k);
            var j := if late(o, n, k) then Settled(row.takes, o[k], o[n]) else Settled(row.takes, o[n], o[k]);
            Recoded(late, t, Obj(o)).Obj? && Holds(Recoded(late, t, Obj(o)).members, k, Written(late, row, j.value))
  {
    var reg, s, takes := ModelRegistry(late), RiftModel.Model(t), RowOf(Rows(t), k).takes;
    var first, last := if late(o, n, k) then o[k] else o[n], if late(o, n, k) then o[n] else o[k];
    assert (first.Null? || Fits(takes, first)) && (last.Null? || Fits(takes, last));
    hide RiftModel.Model, Rows, KeysOf, RowOf, KindOf, Decodes, Fits, Recoded, Written, Holds, LosesOthers, Settled, SameLetters, IsVariant;
    ModelField(t, k);
    OneVariantOnly(t, o, k, n);
    HeldZero(s, k);
    OneVariantEntry(reg, s, ZeroObject(s), o, k, n);
    SettledIsPruned(late, takes, first, last);
    hide Entry, PruneKind, PruneStruct, Spellings;
    FieldWritten(late, t, o, k, Settled(takes, first, last).value);
  }

  lemma OneVariantOnly(t: TypeName, o: map<string, Json>, k: string, n: string)
    requires k in KeysOf(Rows(t)) && forall m :: m in o ==> (ReadAs(t, m, k) <==> m == k || m == n)
    ensures n != k ==> forall m :: m in o ==> (IsVariant(RiftModel.Model(t).fields.Keys, m, k) <==> m == n)
  {
    hide RiftModel.Model, Rows, KeysOf, SameLetters, IsVariant;
    forall m | m in o ensures n != k ==> (IsVariant(RiftModel.Model(t).fields.Keys, m, k) <==> m == n) { VariantIsSameLetters(t, m, k); }
  }

  // ----- some keys by name -----

  lemma CaseSensitiveRow()
    ensures "caseSensitive" in KeysOf(Rows(Predicate)) && RowOf(Rows(Predicate), "caseSensitive") == Optional("caseSensitive", Switch)
  {
    RowAt(PREDICATE_KEYS, 11);
    hide KeysOf, RowOf;
  }

  lemma KeyCaseSensitiveRow()
    ensures "keyCaseSensitive" in KeysOf(Rows(Predicate)) && RowOf(Rows(Predicate), "keyCaseSensitive") == Optional("keyCaseSensitive", Switch)
  {
    RowAt(PREDICATE_KEYS, 12);
    hide KeysOf, RowOf;
  }

  lemma LatencyRow()
    ensures "latencyMs" in KeysOf(Rows(RecordedRequest))
    ensures RowOf(Rows(RecordedRequest), "latencyMs") == Optional("latencyMs", Reading(18446744073709551615))
  {
    RowAt(RECORDED_REQUEST_KEYS, 9);
    hide KeysOf, RowOf;
  }

  lemma ResponseRows()
    ensures forall k | k == "statusCode" || k == "body" ::
              k in KeysOf(Rows(IsResponse)) && RowOf(Rows(IsResponse), k) == Optional(k, Anything)
  {
    RowAt(IS_RESPONSE_KEYS, 0);
    RowAt(IS_RESPONSE_KEYS, 2);
    hide KeysOf, RowOf;
  }

  /** A predicate's case settings come back, false as well as true. */
  lemma CaseSettingsComeBack(late: Order, o: map<string, Json>, k: string, b: bool)
    requires Decodes(Predicate, Obj(o)) && (k == "caseSensitive" || k == "keyCaseSensitive")
    requires k in o && o[k] == Bool(b) && SpelledAlone(Predicate, o, k)
    ensures var e := Recoded(late, Predicate, Obj(o)); e.Obj? && k in e.members && e.members[k] == Bool(b)
  {
    hide Decodes, SpelledAlone, Recoded, Rows, KeysOf, RowOf;
    CaseSensitiveRow();
    KeyCaseSensitiveRow();
    RecodedKey(Predicate, late, o, k);
  }

  /** A latency of 0 comes back, like every other reading. */
  lemma LatencyComesBack(late: Order, o: map<string, Json>, ms: nat)
    requires Decodes(RecordedRequest, Obj(o)) && "latencyMs" in o && o["latencyMs"] == Num(ms as real) && SpelledAlone(RecordedRequest, o, "latencyMs")
    ensures var e := Recoded(late, RecordedRequest, Obj(o)); e.Obj? && "latencyMs" in e.members && e.members["latencyMs"] == Num(ms as real)
  {
    hide Decodes, SpelledAlone, Recoded, Rows, KeysOf, RowOf;
    LatencyRow();
    RecodedKey(RecordedRequest, late, o, "latencyMs");
  }

  /** A status code comes back as the number or string it is, and a body whatever it is, "" included. */
  lemma StatusAndBodyComeBack(late: Order, o: map<string, Json>, k: string)
    requires Decodes(IsResponse, Obj(o)) && (k == "statusCode" || k == "body")
    requires k in o && !o[k].Null? && SpelledAlone(IsResponse, o, k)
    ensures var e := Recoded(late, IsResponse, Obj(o)); e.Obj? && k in e.members && e.members[k] == o[k]
  {
    hide Decodes, SpelledAlone, Recoded, Rows, KeysOf, RowOf;
    ResponseRows();
    RecodedKey(IsResponse, late, o, k);
  }

  lemma {:induction false} RowAt(rows: seq<Row>, i: nat)
    requires i < |rows| && forall j :: i < j < |rows| ==> rows[j].key != rows[i].key
    ensures rows[i].key in KeysOf(rows) && RowOf(rows, rows[i].key) == rows[i]
    decreases |rows|
  {
    var n := |rows| - 1;
    if i < n {
      assert rows[..n][i] == rows[i];
      RowAt(rows[..n], i);
    }
  }
}
