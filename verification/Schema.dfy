/** What encoding/json sees of a Go struct type: its fields, their tags and their kinds. */
module Schema {
  import opened Json

  /** A `json` struct tag: `json:"-"`, or a wire name with or without `omitempty`. */
  datatype Tag = Dash | Wire(name: string, omitEmpty: bool)

  /** The Go types the model's fields have. A struct held by value is written inline, so it is
      finite, as Go demands; pointers and slices name their element type and may recurse. */
  datatype Kind =
    | KAny                            // JSON (any)
    | KText                           // string
    | KFlag                           // bool
    | KInt(below: nat, above: nat)    // an integer type, from -below to above
    | KFlagPtr                        // *bool
    | KIntPtr(below: nat, above: nat) // *uint64
    | KAnyMap                         // map[string]JSON, FieldMatch, Headers
    | KTextMap                        // map[string]string
    | KAnySlice                       // []JSON
    | KInline(struct: Struct)         // T
    | KPointer(target: TypeName)      // *T
    | KSlice(element: TypeName)       // []T

  datatype Field = Field(omitEmpty: bool, kind: Kind)

  /** `open` structs have the MarshalJSON/UnmarshalJSON pair and an Extra map; closed ones do not. */
  datatype Struct = Struct(fields: map<string, Field>, open: bool)

  datatype StructField = StructField(goName: string, tag: Tag, kind: Kind)

  datatype TypeName =
    | ImpostersConfig | Imposter | Stub | Predicate | XPathSelector | JSONPathSelector
    | IsResponse | ProxyResponse | PathRewrite | StubResponse | Behaviors | RiftImposter
    | RiftResponse | RecordedRequest | InterceptRule | InterceptAction | InterceptTarget

  /** The order in which the members of objects are written, where it matters: whether in the given object
      key k comes after the declared key f that it spells differently. */
  type Order = (map<string, Json>, string, string) -> bool

  datatype Registry = Registry(types: TypeName -> Struct, late: Order)

  /** The wire key of a field: the tag's name, or the Go name when the tag gives none. */
  function WireKey(f: StructField): string
    requires f.tag.Wire?
  {
    if f.tag.name == "" then f.goName else f.tag.name
  }

  function FieldMap(decls: seq<StructField>): map<string, Field>
  {
    if decls == [] then map[]
    else
      var rest := FieldMap(decls[..|decls| - 1]);
      var last := decls[|decls| - 1];
      if last.tag.Dash? then rest
      else rest[WireKey(last) := Field(last.tag.omitEmpty, last.kind)]
  }

  function StructOf(decls: seq<StructField>, open: bool): Struct {
    Struct(FieldMap(decls), open)
  }

  /** `knownKeys` without its memo table: one pass over the struct's fields. */
  method KnownKeys(decls: seq<StructField>) returns (keys: set<string>)
    ensures keys == FieldMap(decls).Keys
    ensures forall k :: k in keys <==> exists i :: 0 <= i < |decls| && decls[i].tag.Wire? && WireKey(decls[i]) == k
  {
    keys := {};
    for i := 0 to |decls|
      invariant keys == FieldMap(decls[..i]).Keys
      invariant forall k :: k in keys <==> exists n :: 0 <= n < i && decls[n].tag.Wire? && WireKey(decls[n]) == k
    {
      assert decls[..i + 1][..i] == decls[..i];
      if decls[i].tag.Wire? {
        keys := keys + {WireKey(decls[i])};
      }
    }
    assert decls[..|decls|] == decls;
  }

  /** A wire key belongs to the last field that claims it. */
  lemma {:induction false} FieldOrigin(decls: seq<StructField>, k: string) returns (i: nat)
    requires k in FieldMap(decls)
    ensures i < |decls| && decls[i].tag.Wire? && WireKey(decls[i]) == k
    ensures FieldMap(decls)[k] == Field(decls[i].tag.omitEmpty, decls[i].kind)
  {
    i := |decls| - 1;
    if decls[i].tag.Dash? || WireKey(decls[i]) != k {
      i := FieldOrigin(decls[..i], k);
    }
  }

  lemma {:induction false} Declared(decls: seq<StructField>, i: nat)
    requires i < |decls| && decls[i].tag.Wire?
    ensures WireKey(decls[i]) in FieldMap(decls)
  {
    if i < |decls| - 1 {
      Declared(decls[..|decls| - 1], i);
    }
  }
}
