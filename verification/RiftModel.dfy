/** The struct types of rift/model.go, field by field, as encoding/json sees them. */
module RiftModel {
  import opened Schema

  const MAX_UINT16: nat := 0xFFFF
  const MIN_INT: nat := 0x8000_0000_0000_0000  // below zero
  const MAX_INT: nat := 0x7FFF_FFFF_FFFF_FFFF
  const MAX_UINT64: nat := 0xFFFF_FFFF_FFFF_FFFF

  function Opt(goName: string, key: string, kind: Kind): StructField { StructField(goName, Wire(key, true), kind) }
  function Must(goName: string, key: string, kind: Kind): StructField { StructField(goName, Wire(key, false), kind) }
  function Extra(): StructField { StructField("Extra", Dash, KAnyMap) }

  function Port(): Kind { KInt(0, MAX_UINT16) }
  function Int(): Kind { KInt(MIN_INT, MAX_INT) }

  const INTERCEPT_ACTION: seq<StructField> :=
    [Opt("Serve", "serve", KPointer(IsResponse)), Opt("Forward", "forward", KPointer(InterceptTarget))]

  const IMPOSTERS_CONFIG: seq<StructField> := [Must("Imposters", "imposters", KSlice(Imposter)), Extra()]

  const IMPOSTER: seq<StructField> := [
    Opt("Port", "port", Port()), Opt("Protocol", "protocol", KText), Opt("Host", "host", KText), Opt("Name", "name", KText),
    Opt("Stubs", "stubs", KSlice(Stub)), Opt("RecordRequests", "recordRequests", KFlag), Opt("RecordMatches", "recordMatches", KFlag),
    Opt("DefaultResponse", "defaultResponse", KPointer(IsResponse)), Opt("DefaultForward", "defaultForward", KText),
    Opt("AllowCORS", "allowCORS", KFlag), Opt("MutualAuth", "mutualAuth", KFlag), Opt("RejectUnauthorized", "rejectUnauthorized", KFlag),
    Opt("CA", "ca", KAny), Opt("StrictBehaviors", "strictBehaviors", KFlag), Opt("Cert", "cert", KText), Opt("Key", "key", KText),
    Opt("Rift", "_rift", KPointer(RiftImposter)), Extra()]

  const STUB: seq<StructField> := [
    Opt("Predicates", "predicates", KSlice(Predicate)), Opt("Responses", "responses", KSlice(StubResponse)), Opt("ID", "id", KText),
    Opt("ScenarioName", "scenarioName", KText), Opt("RequiredScenarioState", "required_scenario_state", KText),
    Opt("NewScenarioState", "new_scenario_state", KText), Opt("RoutePattern", "route_pattern", KText), Opt("Space", "space", KText),
    Opt("RecordedFrom", "recorded_from", KText), Opt("Verify", "_verify", KAny), Extra()]

  const PREDICATE: seq<StructField> := [
    Opt("Equals", "equals", KAnyMap), Opt("DeepEquals", "deepEquals", KAnyMap), Opt("Contains", "contains", KAnyMap),
    Opt("StartsWith", "startsWith", KAnyMap), Opt("EndsWith", "endsWith", KAnyMap), Opt("Matches", "matches", KAnyMap),
    Opt("Exists", "exists", KAnyMap), Opt("Not", "not", KPointer(Predicate)), Opt("And", "and", KSlice(Predicate)),
    Opt("Or", "or", KSlice(Predicate)), Opt("Inject", "inject", KText), Opt("CaseSensitive", "caseSensitive", KFlagPtr),
    Opt("KeyCaseSensitive", "keyCaseSensitive", KFlagPtr), Opt("Except", "except", KText), Opt("XPath", "xpath", KPointer(XPathSelector)),
    Opt("JSONPath", "jsonpath", KPointer(JSONPathSelector)), Extra()]

  const XPATH_SELECTOR: seq<StructField> := [Must("Selector", "selector", KText), Opt("NS", "ns", KTextMap)]

  const JSONPATH_SELECTOR: seq<StructField> := [Must("Selector", "selector", KText)]

  const IS_RESPONSE: seq<StructField> := [
    Opt("StatusCode", "statusCode", KAny), Opt("Headers", "headers", KAnyMap), Opt("Body", "body", KAny), Opt("Mode", "_mode", KText), Extra()]

  const PROXY_RESPONSE: seq<StructField> := [
    Must("To", "to", KText), Opt("Mode", "mode", KText), Opt("PredicateGenerators", "predicateGenerators", KAnySlice),
    Opt("AddWaitBehavior", "addWaitBehavior", KFlag), Opt("AddDecorateBehavior", "addDecorateBehavior", KText),
    Opt("InjectHeaders", "injectHeaders", KTextMap), Opt("PathRewrite", "pathRewrite", KPointer(PathRewrite)), Opt("Key", "key", KText),
    Opt("Cert", "cert", KText), Extra()]

  const PATH_REWRITE: seq<StructField> := [Must("From", "from", KText), Must("To", "to", KText)]

  const STUB_RESPONSE: seq<StructField> := [
    Opt("Is", "is", KPointer(IsResponse)), Opt("Proxy", "proxy", KPointer(ProxyResponse)), Opt("Inject", "inject", KText),
    Opt("Fault", "fault", KText), Opt("Behaviors", "_behaviors", KPointer(Behaviors)), Opt("Rift", "_rift", KPointer(RiftResponse)),
    Opt("StatusCode", "statusCode", KAny), Opt("Headers", "headers", KAnyMap), Opt("Body", "body", KAny), Extra()]

  const BEHAVIORS: seq<StructField> := [
    Opt("Wait", "wait", KAny), Opt("Repeat", "repeat", Int()), Opt("Decorate", "decorate", KText),
    Opt("ShellTransform", "shellTransform", KAny), Opt("Copy", "copy", KAny), Opt("Lookup", "lookup", KAny), Extra()]

  const RIFT_IMPOSTER: seq<StructField> := [
    Opt("FlowState", "flowState", KAny), Opt("Metrics", "metrics", KAny), Opt("Proxy", "proxy", KAny),
    Opt("ScriptEngine", "scriptEngine", KAny), Opt("Scripts", "scripts", KAnyMap), Extra()]

  const RIFT_RESPONSE: seq<StructField> := [Opt("Fault", "fault", KAny), Opt("Script", "script", KAny), Opt("Templated", "templated", KFlag), Extra()]

  const RECORDED_REQUEST: seq<StructField> := [
    Opt("RequestFrom", "request_from", KText), Must("Method", "method", KText), Must("Path", "path", KText), Opt("Query", "query", KAnyMap),
    Opt("Headers", "headers", KAnyMap), Opt("Body", "body", KAny), Opt("Mode", "_mode", KText), Opt("Timestamp", "timestamp", KText),
    Opt("Status", "status", Int()), Opt("LatencyMs", "latencyMs", KIntPtr(0, MAX_UINT64)), Extra()]

  const INTERCEPT_RULE: seq<StructField> := [
    Opt("Host", "host", KText), Opt("Predicates", "predicates", KSlice(Predicate)),
    Must("Action", "action", KInline(StructOf(INTERCEPT_ACTION, false))), Extra()]

  const INTERCEPT_TARGET: seq<StructField> := [Must("Port", "port", Port())]

  function Decls(t: TypeName): seq<StructField> {
    match t
    case ImpostersConfig => IMPOSTERS_CONFIG
    case Imposter => IMPOSTER
    case Stub => STUB
    case Predicate => PREDICATE
    case XPathSelector => XPATH_SELECTOR
    case JSONPathSelector => JSONPATH_SELECTOR
    case IsResponse => IS_RESPONSE
    case ProxyResponse => PROXY_RESPONSE
    case PathRewrite => PATH_REWRITE
    case StubResponse => STUB_RESPONSE
    case Behaviors => BEHAVIORS
    case RiftImposter => RIFT_IMPOSTER
    case RiftResponse => RIFT_RESPONSE
    case RecordedRequest => RECORDED_REQUEST
    case InterceptRule => INTERCEPT_RULE
    case InterceptAction => INTERCEPT_ACTION
    case InterceptTarget => INTERCEPT_TARGET
  }

  /** The types with a MarshalJSON/UnmarshalJSON pair. */
  predicate IsOpen(t: TypeName) {
    !(t.XPathSelector? || t.JSONPathSelector? || t.PathRewrite? || t.InterceptAction? || t.InterceptTarget?)
  }

  function Model(t: TypeName): Struct { StructOf(Decls(t), IsOpen(t)) }

  /** The keys that are always on the wire. */
  function Mandatory(t: TypeName): set<string> {
    match t
    case ImpostersConfig => {"imposters"}
    case XPathSelector => {"selector"}
    case JSONPathSelector => {"selector"}
    case ProxyResponse => {"to"}
    case PathRewrite => {"from", "to"}
    case RecordedRequest => {"method", "path"}
    case InterceptRule => {"action"}
    case InterceptTarget => {"port"}
    case _ => {}
  }

  /** The field lacks omitempty exactly when its key is in must; a slice has open elements, and a struct
      held by value is the closed InterceptAction. */
  ghost predicate TaggedField(d: StructField, must: set<string>) {
    d.tag.Wire? ==>
      && (!d.tag.omitEmpty <==> WireKey(d) in must)
      && (d.kind.KSlice? ==> IsOpen(d.kind.element))
      && (d.kind.KInline? ==> d.kind.struct == StructOf(INTERCEPT_ACTION, false))
  }

  ghost predicate Tagged(decls: seq<StructField>, must: set<string>) {
    forall i :: 0 <= i < |decls| ==> TaggedField(decls[i], must)
  }

  lemma ImposterTypesTagged()
    ensures Tagged(IMPOSTERS_CONFIG, {"imposters"}) && Tagged(IMPOSTER, {}) && Tagged(RIFT_IMPOSTER, {})
  {
    hide FieldMap;
  }

  lemma PredicateTypesTagged()
    ensures Tagged(STUB, {}) && Tagged(PREDICATE, {}) && Tagged(XPATH_SELECTOR, {"selector"}) && Tagged(JSONPATH_SELECTOR, {"selector"})
  {
    hide FieldMap;
  }

  lemma ResponseTypesTagged()
    ensures Tagged(IS_RESPONSE, {}) && Tagged(PROXY_RESPONSE, {"to"}) && Tagged(PATH_REWRITE, {"from", "to"})
    ensures Tagged(STUB_RESPONSE, {}) && Tagged(BEHAVIORS, {}) && Tagged(RIFT_RESPONSE, {})
  {
    hide FieldMap;
  }

  lemma RecordTypesTagged()
    ensures Tagged(RECORDED_REQUEST, {"method", "path"}) && Tagged(INTERCEPT_RULE, {"action"})
    ensures Tagged(INTERCEPT_ACTION, {}) && Tagged(INTERCEPT_TARGET, {"port"})
  {
    hide FieldMap;
  }

  lemma ModelTagged(t: TypeName)
    ensures Tagged(Decls(t), Mandatory(t))
  {
    hide FieldMap, Tagged;
    ImposterTypesTagged();
    PredicateTypesTagged();
    ResponseTypesTagged();
    RecordTypesTagged();
  }

  lemma MandatoryDeclared(t: TypeName, k: string)
    requires k in Mandatory(t)
    ensures k in FieldMap(Decls(t))
  {
    hide FieldMap;
    match t
    case ImpostersConfig => Declared(IMPOSTERS_CONFIG, 0);
    case XPathSelector => Declared(XPATH_SELECTOR, 0);
    case JSONPathSelector => Declared(JSONPATH_SELECTOR, 0);
    case ProxyResponse => Declared(PROXY_RESPONSE, 0);
    case PathRewrite => Declared(PATH_REWRITE, if k == "from" then 0 else 1);
    case RecordedRequest => Declared(RECORDED_REQUEST, if k == "method" then 1 else 2);
    case InterceptRule => Declared(INTERCEPT_RULE, 2);
    case InterceptTarget => Declared(INTERCEPT_TARGET, 0);
  }

  /** Exactly the mandatory keys lack omitempty. */
  lemma MandatoryKeys(t: TypeName, k: string)
    ensures k in Model(t).fields && !Model(t).fields[k].omitEmpty <==> k in Mandatory(t)
  {
    hide FieldMap, Decls, Mandatory;
    ModelTagged(t);
    if k in Model(t).fields {
      var i := FieldOrigin(Decls(t), k);
      assert TaggedField(Decls(t)[i], Mandatory(t));
    }
    if k in Mandatory(t) {
      MandatoryDeclared(t, k);
    }
  }

  /** What the decoder relies on: slices hold open structs, and only InterceptAction is held by value. */
  lemma ModelShapes(t: TypeName, f: string)
    requires f in Model(t).fields
    ensures var k := Model(t).fields[f].kind;
            && (k.KSlice? ==> Model(k.element).open)
            && (k.KInline? ==> k.struct == Model(InterceptAction))
  {
    hide FieldMap, Decls, Mandatory;
    ModelTagged(t);
    var i := FieldOrigin(Decls(t), f);
    assert TaggedField(Decls(t)[i], Mandatory(t));
    InterceptActionIs();
  }

  lemma InterceptActionIs()
    ensures Model(InterceptAction) == StructOf(INTERCEPT_ACTION, false)
  {
    hide FieldMap;
  }
}
