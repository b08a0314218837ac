/** The capability gate of riftembed/buildinfo.go: which serve options an engine accepts, and the
    check that refuses the rest. */
module ServeOptions {
  import opened Json
  import opened Strings

  /** serveOptions is None on an engine that publishes no list. */
  datatype BuildInfo = BuildInfo(version: string, serveOptions: Option<seq<string>>)

  const PRE_LIST_SERVE_OPTIONS: seq<string> :=
    ["host", "port", "apiKey", "metricsPort", "configFile", "config", "allowInjection"]

  predicate Supports(info: BuildInfo, name: string) {
    if info.serveOptions.None? then name in PRE_LIST_SERVE_OPTIONS else name in info.serveOptions.value
  }

  ghost predicate Sorted(ks: seq<string>) { forall i, j :: 0 <= i < j < |ks| ==> AtMost(ks[i], ks[j]) }

  /** sort.Strings, in place. */
  method SortStrings(a: array<string>)
    modifies a
    ensures Sorted(a[..]) && multiset(a[..]) == multiset(old(a[..]))
  {
    for i := 0 to a.Length
      invariant Sorted(a[..i]) && multiset(a[..]) == multiset(old(a[..]))
    {
      InsertLast(a, i);
    }
    assert a[..a.Length] == a[..];
  }

  /** Moves a[i] down to its place in the sorted prefix a[..i]. */
  method InsertLast(a: array<string>, i: nat)
    requires i < a.Length && Sorted(a[..i])
    modifies a
    ensures Sorted(a[..i + 1]) && multiset(a[..]) == multiset(old(a[..]))
  {
    var j := i;
    while j > 0 && Below(a[j], a[j - 1])
      invariant 0 <= j <= i
      invariant forall p, q :: 0 <= p < q <= i && q != j ==> AtMost(a[p], a[q])
      invariant multiset(a[..]) == multiset(old(a[..]))
    {
      a[j], a[j - 1] := a[j - 1], a[j];
      j := j - 1;
    }
    forall p | 0 <= p < j ensures AtMost(a[p], a[j]) {
      BelowTotal(a[j - 1], a[j]);
      if p < j - 1 && Below(a[p], a[j - 1]) && Below(a[j - 1], a[j]) { BelowTransitive(a[p], a[j - 1], a[j]); }
    }
  }

  /** The refusal of checkServeOptions names the least unsupported key; None when there is none. */
  ghost predicate Verdict(info: BuildInfo, sent: set<string>, refused: Option<string>) {
    match refused
    case None => forall k :: k in sent ==> Supports(info, k)
    case Some(k) => k in sent && !Supports(info, k) && forall n :: n in sent && !Supports(info, n) ==> AtMost(k, n)
  }

  lemma SameMembers(a: seq<string>, b: seq<string>)
    requires multiset(a) == multiset(b)
    ensures forall k :: k in a <==> k in b
  {
    forall k ensures k in a <==> k in b {
      assert k in a <==> k in multiset(a);
      assert k in b <==> k in multiset(b);
    }
  }

  method CheckServeOptions(info: BuildInfo, sent: set<string>) returns (refused: Option<string>)
    ensures Verdict(info, sent, refused)
  {
    var list: seq<string>, todo := [], sent;
    while todo != {}
      invariant todo <= sent && forall k :: k in list <==> k in sent - todo
      decreases todo
    {
      var k :| k in todo;
      list := list + [k];
      todo := todo - {k};
    }
    var keys := new string[|list|](i requires 0 <= i < |list| => list[i]);
    assert keys[..] == list;
    SortStrings(keys);
    SameMembers(keys[..], list);
    for i := 0 to keys.Length
      invariant forall j :: 0 <= j < i ==> Supports(info, keys[j])
    {
      if !Supports(info, keys[i]) {
        assert keys[i] in keys[..];
        forall n | n in sent && !Supports(info, n) ensures AtMost(keys[i], n) {
          assert n in keys[..];
          var j :| 0 <= j < keys.Length && keys[..][j] == n;
          assert i < j ==> AtMost(keys[..][i], keys[..][j]);
        }
        return Some(keys[i]);
      }
    }
    forall k | k in sent ensures Supports(info, k) {
      assert k in keys[..];
    }
    return None;
  }

  /** An engine without a list accepts exactly the seven keys that were there before it, so it refuses for
      instance requireAdminAuth; an engine with a list accepts what it lists. */
  lemma WhoAcceptsWhat(info: BuildInfo, sent: set<string>, refused: Option<string>)
    requires Verdict(info, sent, refused)
    ensures info.serveOptions.None? ==>
              && (refused.None? <==> sent <= {"host", "port", "apiKey", "metricsPort", "configFile", "config", "allowInjection"})
              && ("requireAdminAuth" in sent ==> refused.Some?)
    ensures info.serveOptions.Some? ==> (refused.None? <==> forall k :: k in sent ==> k in info.serveOptions.value)
  {
    assert refused.None? ==> forall k :: k in sent ==> Supports(info, k);
    assert refused.Some? ==> refused.value in sent && !Supports(info, refused.value);
  }

  /** The verdict does not depend on the order the keys were collected in. */
  lemma VerdictIsUnique(info: BuildInfo, sent: set<string>, a: Option<string>, b: Option<string>)
    requires Verdict(info, sent, a) && Verdict(info, sent, b)
    ensures a == b
  {
    if a.Some? && b.Some? { BelowTotal(a.value, b.value); }
  }
}
