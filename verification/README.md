# A verified model of rift-go

This Dafny project models the parts of rift-go that carry hard correctness promises, and proves those
promises for all inputs and all runs. `dafny verify dfyconfig.toml` checks everything.

| Part | Modules |
|---|---|
| JSON documents and Go struct types with their `json` tags | `Json`, `Schema`, `RiftModel` |
| The wire codec: two-pass decoding and encoding of open structs | `Codec`, `WireCodec`, specified by `Prune`; results in `RoundTrip`, `ExtraVariants`, `Idempotence`, `CaseVariants`, `Fidelity`, and key by key in `WireKeys` |
| The conformance suite's document algorithms, in place on decoded trees | `Trees`, `Conformance`, `TreeDiff`, `Corpus` |
| The stub builder, by value (`Matchers`) and on the heap (`StubBuilder`) | `Matchers`, `StubBuilder` |
| The embedded engine: capability gate, C strings, call protocol | `Strings`, `ServeOptions`, `CStrings`, `EngineProtocol`, `EngineOutcomes` |
| The spawned engine: stop protocol and readiness loop | `SpawnedProcess`, `Readiness` |
| The verified install of the native library | `Install` |

**Codec.** `Codec` is generic over a struct's field table, as the Go helpers are generic over `reflect.Type`;
`RiftModel` gives the seventeen tables, and `WireKeys` says of every key of every type, on documents alone, which values it takes and which of them come back. `Prune` says on JSON trees alone what re-encoding must give, and every
later result is derived from the theorem that connects the two. Key matching follows encoding/json: a declared field is
read from its own key and from every key that differs from it by letter case only, one after another in the order of the
text, while `knownKeys` does not fold case. A second value overwrites the first, except that maps gain entries, closed
structs keep the fields it does not mention, and null leaves strings, booleans, numbers and closed structs alone. Whether a
case variant is written before or after the declared key, in each object of the text, is a parameter (`Registry.late`), and
the theorems hold for every choice of it. The text that re-encoding writes leaves no choice: an object that keeps an unknown key is written as
a map, which encoding/json sorts (`Idempotence.SORTED`).

**Stub builder.** A test of a request is an uninterpreted leaf (operator, parameters, field, optional key, value).
What survives a list of matchers is defined by looking at later matchers only; `Build` is shown to make exactly
those tests, and the condition for "AND of what the caller wrote" is given both as survival and, pair by pair, on the list.

**Protocols.** `EngineProtocol`, `SpawnedProcess` and `Install` are transition systems. `Run` folds any
sequence of enabled steps, and the main lemmas quantify over all of them, so over every interleaving of any
number of goroutines, callers, fetches and readers. The engine model assumes of the native library that a call writes at
most its own thread's error slot, that each owned pointer it hands over is new, and that its own threads do not
write a Go thread's slot. The install model assumes atomic rename, never-reused temporary names, a remove that works,
and an uninterpreted digest (SHA-256, section 6.2 of FIPS 180-4).

**Where the code and its documentation differ.** The package comment (rift/model.go:12-14) and docs/dsl.md:256 promise that a
document survives unchanged. An unknown key that differs from a declared one by case alone is kept, but is also
read into the declared field, so the re-encoded document may have a key the original lacks
(`WireCodec.VariantIsDuplicated`), and re-encoding twice may differ from re-encoding once
(`CaseVariants.TwoPortsIdempotent`, where the declared key is dropped, and `CaseVariants.TwoForwardsIdempotent`, where nothing is
dropped but the sorted text is read in another order than the first). `Idempotence.ModelIdempotentIffStable` says exactly
when, for at most one case variant per declared key and none beside a declared closed struct, and
`Idempotence.SpelledOnceStable` that it takes two spellings of one key in one object. The comment on normalise
(conformance/conformance_test.go:315-320) names two permitted differences; the gate also needs that no closed struct has an
unknown key, no string map holds null and every dropped empty value is a listed default
(`Conformance.ConformanceGate`).

## Model

| member | source | states |
|---|---|---|
| Schema.KnownKeys | rift/json.go:24-43 | the loop's key set is the field table's key set: exactly the wire keys of the fields not tagged "-" |
| WireKeys.DecodesIffFits | rift/model.go:24-254 | a document decodes as one of the seventeen types if and only if every member that is read as one of the type's keys, in any spelling, is null or a value that key takes: a string, a boolean, an integer in its range, an object, an array, or a document of another type |
| WireKeys.RecodedKey | rift/model.go:24-254 | every key of every type, spelled in one way, in every document that decodes: a value is dropped exactly if the key is optional and the value an empty string, false, 0, {} or [] of a key that loses it; otherwise it comes back as it is, or recoded if it is an object of a model type; an absent or null key is written exactly if it is always there; other keys stay in the twelve open types and go in the five closed ones |
| WireKeys.SpelledTwice | rift/json.go:78-85 | of two spellings of a key the last value counts, but null leaves a string, a flag, a number or a closed object alone, and free-form objects and objects of strings are united |
| WireKeys.CaseSettingsComeBack | rift/model.go:105-106 | caseSensitive and keyCaseSensitive of a predicate come back for both booleans |
| WireKeys.LatencyComesBack | rift/model.go:227-231 | a recorded latency comes back, 0 included |
| WireKeys.StatusAndBodyComeBack | rift/model.go:127-134 | a response's status code comes back as the number or string it is, and its body whatever it is, "" included |
| Schema.FieldOrigin | rift/json.go:29-40 | every known key comes from some field of the struct, with that field's omitempty and kind |
| RiftModel.MandatoryKeys | rift/model.go:24-254 | over all seventeen types, the fields without omitempty are exactly the listed mandatory keys (imposters, selector, to, from, method, path, action, port) |
| RiftModel.ModelShapes | rift/model.go:24-254 | over all seventeen types, slices hold open structs only and the one struct held by value is the closed InterceptAction, as the decoder model relies on |
| Codec.EncodedMember | rift/json.go:48-74 | a member of an encoded struct is an emitted field or an Extra key no emitted field claims; an omitted zero field does not shadow Extra |
| WireCodec.MarshalWithExtra | rift/json.go:48-74 | the merge loop adds exactly the Extra keys that were not emitted and changes no emitted one, in any key order |
| WireCodec.UnmarshalWithExtra | rift/json.go:78-102 | the two passes leave in the shadow the decoded fields and exactly the undeclared keys, nil when there are none; an error leaves Extra alone |
| WireCodec.Receiver.UnmarshalJSON | rift/json.go:111-119 | the receiver becomes the decoded value, or on error keeps its old value |
| Codec.DecodesIffReadable | rift/json.go:78-85 | whether a document decodes depends neither on the order of its members nor on what the struct held before: every member read into a declared field, under any spelling, must suit it |
| Prune.EncodeDecode | rift/json.go:48-102 | for every document that decodes, every order of the members of each of its objects and every struct type, encoding the decoded value is the schema-directed pruning of the document |
| Prune.EncodeRead | rift/json.go:78-102 | reading a value over whatever a field holds does on the wire what pruning says: overwriting, filling a map or closed struct further, or leaving it alone |
| Prune.EmptyIsVacant | rift/json.go:48-52 | omitempty drops exactly the values whose wire form is vacant for the field's kind |
| Prune.PrunedMember | rift/json.go:45-74 | which keys of an object survive: declared ones unless optional and vacant once all their spellings are read, unknown ones in open structs only, verbatim |
| Fidelity.UnknownKeyFate | rift/json.go:11-17 | at any depth, through any path of declared fields and array elements in which no declared key is respelled beside itself, an unknown key is verbatim in the re-encoded document if its struct is open and gone if it is closed |
| Fidelity.PathKept | rift/json.go:76-102 | such a path of declared fields leads to the pruned object in the pruned document |
| RoundTrip.DecodeEncode | rift/json.go:45-102 | for a value of its Go type whose Extra holds neither declared keys nor case variants of them, decoding what it encodes to gives the value with empty optional maps, slices and Extra made nil, and nothing else changed |
| RoundTrip.RestOfEncoded | rift/json.go:86-100 | the second decoding pass recovers exactly the value's Extra, nil if it was empty, case variants included, provided it holds no declared key |
| RoundTrip.DecodedTyped | rift/json.go:78-102 | decoding any document gives a value of its Go type in which no Extra, at any depth, holds a declared key; if the document has no case variants, neither has any Extra |
| RoundTrip.CanonicalIffTidy | rift/json.go:45-102 | the values the wire changes are exactly those with an empty optional map or slice or an empty Extra somewhere |
| RoundTrip.RoundTripIffCanonical | rift/json.go:310-340 | a value of its Go type, with no case variant of a declared key in Extra, survives encoding and decoding if and only if it is canonical and no Extra holds a declared key |
| ExtraVariants.StructReturns | rift/json.go:45-102 | with case variants in Extra, at most one of each declared key and none beside a closed struct that is written, a typed value survives if and only if no Extra is empty or holds a declared key and every field returns: without a variant as above; beside one, by whether the field is written and which of the two is read last, from the two values alone |
| ExtraVariants.ModelReturns | rift/json.go:59-73 | the same for the wire model in the order the encoder writes, which sorts an object that has an Extra |
| ExtraVariants.ReturnsIffCanonical | rift/json.go:45-102 | without case variants that condition is: canonical, and no Extra holds a declared key |
| RoundTrip.Idempotent | rift/json.go:310-340 | without case variants, re-encoding is idempotent and re-decoding gives the canonical form of what was first decoded |
| Idempotence.ReencodedDecodes | rift/json.go:310-340 | what was decoded and encoded once always decodes again, whatever the order of members then |
| Idempotence.IdempotentIffStable | rift/json.go:45-102 | for documents with at most one case variant of a declared key in an object and none beside a closed struct, a first pass in any order and a second in any other: the second changes nothing if and only if no dropped declared key uncovers a non-empty case variant, and a kept variant that the second pass reads after the declared key adds nothing to what the field came to, at any depth the second pass reads |
| Idempotence.ModelIdempotentIffStable | rift/json.go:59-73 | the same for every type of the wire model, any text, and the second pass in the sorted order that the first one wrote |
| Idempotence.SpelledOnceStable | rift/json.go:90-96 | a document that spells each declared key of an object in at most one way is stable under any two orders, so one pass is enough for it |
| Idempotence.StructAgain | rift/json.go:78-102 | a struct pruned in one order and read again in another, over zero or over what the original gives in that order, is unchanged exactly under the stability conditions; the original read over it restores it exactly if both orders give the same |
| CaseVariants.PairStable | rift/json.go:59-73 | an optional scalar of an open struct spelled twice, for any two orders: stable if and only if the field is dropped and the variant empty too, or the field is written and the variant is read before it, is null or equals it |
| CaseVariants.TwoPortsIdempotent | rift/json.go:90-96 | for the imposter with "port" 0 and an unknown "Port" 80 a second pass gives the same document if and only if "Port" is read after "port"; with "port" null it always does |
| CaseVariants.TwoForwardsIdempotent | rift/json.go:59-73 | for the imposter with "defaultForward" and an unknown "defaultforward", any two texts, a second pass gives the same document if and only if they are equal or the first text has the variant last |
| WireCodec.ModelRoundTrip | rift/model.go:24-254 | all model types and every order of the members of each object: re-encoding prunes; if the document has no case variants it is also idempotent and decodes back to the canonical value |
| WireCodec.MandatoryAlwaysPresent | rift/model.go:24-254 | mandatory keys are on the wire after any decode, whatever the document said |
| WireCodec.VariantIsDuplicated | rift/json.go:90-96 | an unknown key that folds to an absent declared key is kept and also appears under the declared key, unless omitempty drops it there |
| Conformance.Normalise | conformance/conformance_test.go:321-336 | the in-place walk leaves, in the document's own maps and slices, the normalised document, whatever order keys are visited in |
| Conformance.NormaliseMember | conformance/conformance_test.go:324-330 | one round deletes the entry exactly when it is null or an engine default, else normalises below it, and leaves every other entry alone |
| Conformance.DroppedEntries | conformance/conformance_test.go:321-348 | null entries and exactly seven others are dropped: protocol when "http", and recordRequests, recordMatches, allowCORS, mutualAuth, rejectUnauthorized and strictBehaviors when false |
| Conformance.ConformanceGate | conformance/conformance_test.go:44-73 | for every document that decodes, the gate's comparison succeeds if and only if the document meets a condition read off the document and the types, key by key; a key with case variants beside it is as it would be alone if it is read last and overwrites, the last variant must say the same if that overwrites, and otherwise (maps, closed structs, null) all spellings read in turn must come to what the key says alone |
| Conformance.SameObject | conformance/conformance_test.go:321-348 | two objects normalise alike exactly when every key leaves the same in both |
| TreeDiff.FirstDifference | conformance/conformance_test.go:352-393 | returns nothing if and only if the trees are equal; otherwise a path with a genuine divergence of the reported kind, for every map order, and the first one: unequal lengths before elements, elements in order, added keys only after all others agree; between trees, which hold no nil map, the last fallback is unreachable |
| TreeDiff.DocumentsDifference | conformance/conformance_test.go:66-69 | on two decoded documents, the nil map of the text null included: the last fallback is reached exactly for a nil and an empty map |
| TreeDiff.GenuineDiverges | conformance/conformance_test.go:352-393 | a reported path leads to different places in the two documents |
| Corpus.Absolutise | conformance/corpus.go:157-179 | the in-place walk leaves the rewritten document in the same maps and slices |
| Corpus.ChangesReferencesOnly | conformance/corpus.go:153-179 | every path leads to the same place before and after; keys, lengths and non-string leaves are kept; a string changes exactly when it starts with data/ or fixtures/, and then to filepath.Join of the corpus directory and itself |
| Corpus.ReferencesNameTheirFiles | conformance/corpus.go:172-172 | a clean reference becomes the corpus directory, a slash and itself, so different references name different files |
| Corpus.AbsolutiseTwice | conformance/corpus.go:111-118 | with an absolute corpus directory a second pass changes nothing |
| Matchers.GroupingIsCanonical | rift/stub.go:152-170 | one predicate per distinct operator and parameters, in first-occurrence order |
| Matchers.GroupsHoldSurvivors | rift/stub.go:182-201 | forward merging computes, for every list, exactly the value a scan for later writers says survives |
| Matchers.SurvivorIsUnique | rift/stub.go:182-201 | survival determines one value per group and field |
| Matchers.BuildTestsSurvivors | rift/stub.go:142-176 | the built predicates test exactly the surviving leaves, for every matcher list |
| Matchers.BuildPreservesMeaning | rift/stub.go:142-176 | Build means the conjunction of the matchers as written, under every interpretation of the leaves, if and only if no written leaf is lost |
| Matchers.LosslessIffAgreeing | rift/stub.go:180-201 | for matchers that make a test, an empty deepEquals object included, no leaf is lost if and only if no two matchers of a group on a field disagree, checked pair by pair before the call |
| Matchers.AgreeingIsLossless | rift/stub.go:180-201 | agreement is enough even with empty or object-valued plain matchers |
| Matchers.LastMatcherHolds | rift/stub.go:182-201 | the last matcher of its group on a field is in the built value: whole if plain, with every key if an object |
| Matchers.DeepEqualsDoesNotDistribute | rift/stub.go:182-194 | two deepEquals matchers on different keys of one field merge into a comparison neither of them wrote |
| Matchers.ReorderingPermutes | rift/stub.go:152-174 | any reordering of matchers that agree gives the same groups with the same field values |
| StubBuilder.ConstructedIsBuilt | rift/predicate.go:25-44 | a matcher of each of the seven constructors, in any builder, is built into the predicate map of its own wire key ("equals", "deepEquals", "contains", "startsWith", "endsWith", "matches", "exists"), with the caller's value and settings, unless a later matcher of its group takes the field |
| StubBuilder.BuildOne | rift/stub.go:145-176 | a builder with one such matcher builds one predicate with that map, that field, that value and nothing else |
| StubBuilder.StubOnHeader | rift/stub.go:68-94 | a matcher on a header is in the built stub under "headers" and the header's name, in the map of its constructor |
| StubBuilder.ConstructedTests | rift/predicate.go:25-44 | what such a matcher tests: an object key by key, except whole under deepEquals, anything else as it is; a scalar or non-empty object makes a test |
| StubBuilder.ParamsFaithful | rift/predicate.go:67-76 | two matchers share a signature exactly when their settings are equal, and the settings can be read back from it |
| StubBuilder.Apply | rift/predicate.go:87-99 | writes the present settings onto the predicate and nothing else |
| StubBuilder.SetField | rift/predicate.go:102-125 | each of the seven operators gets the field in its one map, made on first use; any other name changes nothing |
| StubBuilder.MergeField | rift/stub.go:182-201 | the field's value becomes the merge of old and new, held in the old map or a fresh one, never in the matcher's own |
| StubBuilder.StubBuilder.constructor | rift/stub.go:28-33 | a new builder tests method and path by equality |
| StubBuilder.StubBuilder.WithNested | rift/stub.go:89-94 | appends a matcher on one key through a fresh map |
| StubBuilder.StubBuilder.WithHeader | rift/stub.go:66-69 | appends the matcher on one key of "headers" |
| StubBuilder.StubBuilder.WithQuery | rift/stub.go:71-74 | appends the matcher on one key of "query" |
| StubBuilder.StubBuilder.WithField | rift/stub.go:82-85 | appends one matcher |
| StubBuilder.StubBuilder.WithPredicate | rift/stub.go:77-80 | appends raw predicates |
| StubBuilder.StubBuilder.Build | rift/stub.go:145-176 | writes no object that existed before; the predicates are the groups in order, each made of its own fresh maps, then the raw ones unchanged |
| StubBuilder.GroupedPredicatesTestSurvivors | rift/stub.go:145-176 | read off their operator maps alone, the wire predicates make exactly the surviving tests |
| StubBuilder.OneOperatorMap | rift/predicate.go:102-125 | a grouped predicate fills exactly the map of its operator, and no map for an unknown operator |
| StubBuilder.BuildTwice | rift/stub.go:145-176 | two calls give equal groupings made of disjoint maps |
| ServeOptions.CheckServeOptions | riftembed/buildinfo.go:55-72 | succeeds exactly when every sent key is supported, else names the least unsupported one |
| ServeOptions.WhoAcceptsWhat | riftembed/buildinfo.go:29-40 | an engine without a list accepts exactly host, port, apiKey, metricsPort, configFile, config and allowInjection, so it refuses requireAdminAuth; one with a list accepts what it lists |
| Strings.BelowMeans | riftembed/buildinfo.go:64-64 | the sort order is by the first differing character, a proper prefix first |
| ServeOptions.SortStrings | riftembed/buildinfo.go:64-64 | the array is sorted in place and is a permutation of what it was |
| ServeOptions.VerdictIsUnique | riftembed/buildinfo.go:60-71 | the verdict does not depend on the order keys were collected in |
| CStrings.TextIsMaximal | riftembed/ffi.go:176-189 | the copied text has no NUL and is followed by one in memory |
| CStrings.NativeHeap.GoString | riftembed/ffi.go:176-189 | for an owned or static string the loop stops at the first NUL inside the allocation and copies the bytes before it; a nil pointer gives "" |
| CStrings.NativeHeap.TakeString | riftembed/ffi.go:195-202 | returns the text and frees exactly that pointer once; a nil pointer gives "" and frees nothing |
| EngineProtocol.LifetimeSafe | riftembed/engine.go:87-155 | in every run no operation is inside the library unless the engine runs and is mapped; stop and unload happen at most once, in that order, with nobody inside |
| EngineProtocol.ClosedStaysClosed | riftembed/engine.go:114-155 | an operation that begins after closing never enters the library and ends cancelled or closed (ABIVersion with zero); a second Close stops nothing |
| EngineProtocol.MessagesAreOwn | riftembed/engine.go:143-181 | with goroutines migrating between threads, a failing call returns the message its own downcall wrote |
| EngineProtocol.TextsAreOwn | riftembed/engine.go:175-181 | a call that succeeds with a string returns the text of the one its own downcall handed over |
| EngineProtocol.StringsBalanced | riftembed/engine.go:159-181 | every owned pointer is copied as its text and freed exactly once; with no call holding one none is live |
| EngineProtocol.ServeIsGated | riftembed/ops.go:421-451 | the serve downcall is reached only with options the engine advertises, even with a Close between the two lock regions |
| EngineOutcomes.OutcomesAreReported | riftembed/engine.go:139-181 | in every run a finished operation has taken exactly one step that ends it, after finding its context live if it calls the library, and for ServeAdmin after reading the build info and passing its check, and reports what that step calls for: a failing downcall its message, a succeeding one its value, a refusal the key, a closed engine or a cancelled context itself |
| EngineOutcomes.CallsReport | riftembed/engine.go:139-173 | a call whose downcall failed returns an error with the message that downcall wrote, never success; one whose downcall succeeded a value; one that made none was cancelled or found the engine closed |
| EngineOutcomes.CloseFinishes | riftembed/engine.go:114-137 | a returned Close leaves the engine closed, stopped once and unloaded |
| EngineProtocol.RecordIsLastWrote | riftembed/engine.go:157-173 | the failure a call carries to its caller is the one its own last failing downcall wrote |
| EngineProtocol.InvStep | riftembed/engine.go:87-181 | every step of the protocol keeps the lock, thread, lifetime, program-point and ledger invariants |
| SpawnedProcess.StopProtocol | rift/spawn.go:186-224 | the child is waited on once, its error read only after the channel closes, terminated at most once and killed only after that and 5 s |
| SpawnedProcess.StopsAgree | rift/spawn.go:199-224 | all callers of stop get the same error, and only after the child is reaped |
| SpawnedProcess.StopReports | rift/spawn.go:228-240 | a returned stop gives no error if the child ended without one, with an exit status (a signal's too) or was already gone, and exactly the child's error otherwise |
| SpawnedProcess.SignalledChildClosesCleanly | rift/spawn.go:226-240 | closing the owner of a child that ends by its signal returns no error |
| SpawnedProcess.StopWaitsForTheDoomed | rift/spawn.go:213-220 | stop waits with a timer of 5 s only after SIGTERM and without one only after a kill |
| SpawnedProcess.SpawnReports | rift/spawn.go:136-184 | Spawn succeeds exactly when a probe did, and fails exactly when connecting failed, the context was cancelled, the child had exited or the time was up |
| SpawnedProcess.SpawnOwnsOrReaps | rift/spawn.go:123-149 | a failed Spawn leaves the child reaped; a successful one owns it, and until somebody closes it or startup fails nothing is sent to the child |
| SpawnedProcess.CancelledStartupFails | rift/spawn.go:158-170 | a context cancelled before the next probe makes Spawn fail, in every continuation |
| SpawnedProcess.OwnedUntilClosed | rift/spawn.go:78-90 | after Spawn has returned, cancelling its context sends nothing to the child in any continuation without a Close |
| SpawnedProcess.CloseReaps | rift/remote.go:93-99 | a finished Close of an owner leaves the child reaped |
| SpawnedProcess.StopProgress | rift/spawn.go:199-224 | once the child has exited, a call of stop that has not returned always has an enabled step that brings it closer, at most nineteen of them |
| SpawnedProcess.ProgressKept | rift/spawn.go:199-224 | no step of any other goroutine undoes that progress |
| SpawnedProcess.StopReturns | rift/spawn.go:199-224 | those steps alone take every call of stop to its return |
| Readiness.SleepClosedForm | rift/spawn.go:156-182 | the n-th sleep is min(10 * 2^(n-1), 320) ms |
| Readiness.SleptClosedForm | rift/spawn.go:156-182 | the time spent sleeping after n rounds in closed form |
| Readiness.ProbesWithinBound | rift/spawn.go:154-184 | the closed-form probe bound is exact: it allows a last probe if and only if the sleeps before the probe ahead of it fit into the timeout |
| Readiness.DefaultMakesAtMost68 | rift/spawn.go:128-131 | the default timeout allows at most 68 probes |
| Readiness.WaitReady | rift/spawn.go:154-184 | returns within timeout + 2320 ms and within the probe bound, at the time its probes and sleeps add up to; before every probe the context was live and the child running; only the last probe can succeed, and then it reports success; each failure is reported only for its own cause |
| Install.ReadersSeeWholeFiles | riftfetch/fetch.go:278-322 | in every run with failures and crashes the destination and its readers have the initial content or one whole verified body |
| Install.VisibleBytesNeverChange | riftfetch/fetch.go:278-322 | a file once visible at the destination never changes afterwards |
| Install.ReturnedFetch | riftfetch/fetch.go:180-195 | a returned fetch left no temporary file; Cached means not forced, matching existing bytes and no write; Installed means its whole body matched; Failed means the destination was never touched |
| Install.ForceIsNeverCached | riftfetch/fetch.go:182-187 | in every run a forced fetch neither reads the existing file nor reports it |
| Install.UndisturbedFetchFindsCached | riftfetch/fetch.go:180-187 | an unforced fetch left alone on a matching file reports Cached with its bytes and changes nothing, however the file is cut for hashing |
| Install.UndisturbedCallInstalls | riftfetch/fetch.go:180-195 | from the call on: a fetch that is forced, or finds no file, one that does not match or one it cannot read to its end, installs a matching body when left alone |
| Install.FailsForCause | riftfetch/fetch.go:254-322 | a fetch fails only if the download could not start or broke off, closing, chmod or rename failed, or the body does not match |
| Install.MismatchNeverInstalled | riftfetch/fetch.go:295-308 | a body with the wrong digest is never installed, not even by a fetch that crashes |
| Install.OnlyRenameInstalls | riftfetch/fetch.go:315-318 | only the rename changes the destination, and it puts the fetch's own whole verified body there |
| Install.BodyCopied | riftfetch/fetch.go:289-292 | however the stream is cut into chunks, file and hasher both get all of it |
| Install.UndisturbedFetchInstalls | riftfetch/fetch.go:254-322 | a fetch left alone with a matching body installs it and reports so |
| Install.InvStep | riftfetch/fetch.go:254-322 | every step keeps the ownership of temporary files, the hash-and-file agreement and the immutability of published files |
| Install.Find | riftfetch/fetch.go:63-75 | finds the first artifact of the platform if there is one, else lists every platform in order |

## Left out

- JSON text: lexing, number spelling and float precision (numbers are abstract, section 6 of RFC 8259), and duplicate names (section 4 of RFC 8259). A number is its value: 80.0 or 8e1, which encoding/json refuses for an integer field, count as 80.
- Prune.EncodeDecode: several case variants of one declared key on the same side of it are read in some fixed order, and two equal objects of one document order a declared key and its variant alike; documents are trees without a text order of their own.
- Idempotence.IdempotentIffStable: stated for objects with at most one case variant per declared key, and none beside a declared closed struct, where two objects are merged field by field. Idempotence.ReencodedDecodes has neither limit.
- ExtraVariants.StructReturns: the same two limits, on the Extra of a value; the second only where the closed struct is written.
- RoundTrip.DecodeEncode: what a value comes back as is stated for an Extra without declared keys and case variants; with them ExtraVariants.StructReturns says when it comes back unchanged, and Prune.EncodeDecode what it is on the wire.
- WireKeys.SpelledTwice: two objects for one key of a closed type are merged field by field; what that gives is said by Prune.EncodeDecode only.
- Conformance.ConformanceGate: for maps and closed structs with a case variant beside them, and where the last spelling is a null that leaves a scalar alone, the condition compares what all spellings come to with what the key says.
- Codec: an Extra or free-form value that json.Marshal rejects (a channel, a function, NaN); every modelled value is JSON.
- knownKeys' memo table (rift/json.go:20-27), which does not change the result.
- Matchers: request matching itself (regular expressions, XPath, JSONPath, scripts); leaves are uninterpreted.
- Matchers.LosslessIffAgreeing: an empty object makes no test under any operator but deepEquals and is excluded from the pairwise check there, as is a plain matcher value that is an object of another Go type; Matchers.BuildPreservesMeaning covers them.
- StubBuilder: maps nested inside a merged matcher value are values, so aliasing below the first level is not modelled. The other fluent setters, response builders, PredicateOn and the Not, And and Or wrappers are one-line members.
- EngineProtocol: Start and its failure paths, the classification of error messages, parse errors of the build info, argument checks before the lock, writer preference of the lock, and progress: only safety is proved.
- SpawnedProcess: a child that never dies after a kill, the branch for a command without a process, and signals that fail. Progress is proved of stop, given a child that exits; a probe may succeed although the context is cancelled while it runs.
- Readiness.WaitReady: sleeps are exact and code between probes takes no time.
- Install: HTTP, manifest download, mirror URLs, platform detection, directory creation and permissions appear only as steps that may fail; a failing remove and a reused temporary name are excluded.
- Corpus: filepath.Clean is any function that keeps rooted paths rooted, with Unix path rules.
- Text of messages: firstDifference reports a path and a reason, the sentences are not modelled.
- The HTTP admin client, TLS, binary discovery, free-port search, test glue and the Windows files.
