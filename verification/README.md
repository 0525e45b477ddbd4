# Verified models of CDBNPP's self-contained libraries

CDBNPP keeps calibration payloads and serves them by path, flavor and time. This project models the
parts of it that are pure computation and state, in Dafny, and proves what they are for.

- **JSON Schema** (`Json`, `JsonPointer`, `Keywords`, `Schemas`, `SchemaParser`, `Validator`, `JsonSchema`).
  The parser compiles a document with references into a shared, possibly cyclic graph of subschemas,
  remembering in a cache what it has compiled; the visitor interprets that graph over a value, either
  stopping at the first failure or collecting errors. `Semantics` gives the verdict of a document with
  references resolved on the fly and the verdict of a graph; `Meaning` states the former keyword by
  keyword on the JSON itself, and `Readability` which nodes can be read at all. `Escaping` and `References`
  say what pointers and references mean. `Compilation` proves that both verdicts agree wherever a graph represents a
  document (`Agreement` constraint by constraint). `Reachability` says which schema nodes compiling can
  come to and at which paths, `CacheWalk` in which order it does so and which keys are cached each time;
  `CompiledForms` what the parser makes of any document, and exactly when this represents the document;
  `ParserState` and `SchemaParser` that the parser makes it, `Weights` how large it can get. `Paths` gives
  a condition on names under which the cache keys are right, `Mistakes` says what follows where they are
  not, and `WrongVerdicts` proves it of families of documents (`SampleDocuments`). `Validator` proves that
  the visitor computes the verdict in both modes, `Reports` and `Rejections` what ends up in the error
  queue. `Locations` says which errors these are without mentioning the queue, and that they lie where what
  they say is true, `ErrorOrder` in which order they come; `Doubles` when numbers are equal.
- **SHA-256** (`ShaConstants`, `Sha256`, `Picosha2`, `ShaExample`). The incremental hasher refines FIPS 180-4 for every way of
  cutting a message into chunks.
- **Random numbers** (`LinearMachine`, `Xoshiro`, `XoshiroExamples`). SplitMix64, xoshiro256 and xoroshiro128, whose
  transitions are linear over GF(2), with their jumps.
- **Base64** (`Base64`, `Base64Examples`). Encoder, decoder and the URL-safe variant, with their buffers.
- **UUIDs** (`Uuids`, `UuidVersion1`, `UuidExamples`). Printing, parsing, the version 1 clock and its fields.
- **Payload cache** (`PayloadCache`). The in-memory adapter with high and low marks.

## Conditions

The schema parser is proved to end, and to fail exactly where it must, on all documents in which the
chains of references it comes to have an end (the source says it does not detect endless ones). What it
leaves is a `CompiledForm` of the document: every pointer in the graph is either a subschema made for the
node in that place or what the cache holds for its path or its reference, and which of them is decided by
a walk over the document that says which keys are cached when the parser comes to each subschema.
`CompiledForms.RepresentsExactly` says when the result is right, for all these documents: if and only if
no concrete subschema is visited while its path is cached for another node, and every reference that is
visited leads to a concrete node of the document (`NoMistake`). It is so if paths are `Faithful`: no
reference to another document is spelled like a pointer that is followed, and wherever the path handed
down to a schema is also the pointer of some reference, it leads to that schema. It is not always so,
because the path handed down for `propertyNames` is that of the enclosing schema, all schemas
in `dependencies` have one path, and names are not escaped. `Paths.PlainIsFaithful` is a condition that
can be read off the names and references: names need no escaping, no reference to another document is
spelled like a pointer, schemas for property names and schemas in `dependencies` have no subschemas, and
no reference points to a schema that has the former or to a `dependencies` object that has the latter.
`WrongVerdicts` proves of three families of documents that the code gives the wrong verdict on them, in
either direction, and that the order of keywords decides. Validation ends on `Guarded` documents: every
cycle of subschemas descends into the value; `Settles` says it of what the parser makes.

Where code and documentation disagree the code is modelled. `Subschema::apply` stops at the first
failing constraint although its comment says it does not. In collecting mode the array form of `items`
takes later items to start after as many as were accepted: `Reports.CoveredItemIsReported` is an input on
which an item with a schema of its own is reported as having none, and `Reports.ItemsReportExactly` the
exact condition for the report to be right. A pattern pass stops at its first failure in both modes:
`Locations.MatchedNameIsUnwanted` is an input on which a name that matches a pattern is then reported as
unwanted, and `Locations.SettledExactly` says which names are affected.
`setCacheItemLimit` sets the high mark for bytes. `resolveJsonPointer` catches what `std::stoul` throws
for text that is no number, but not what it throws for an index of 2^64 or more: that ends in a logic
error.

## Model

| member | source | states |
|---|---|---|
| Json.EqualToIsEquivalence | contrib/valijson/adapters/basic_adapter.hpp:484-522 | strict `equalTo` is reflexive, symmetric and transitive on well-formed values of any depth, numbers included |
| Json.EqualIffSameDenotation | contrib/valijson/adapters/basic_adapter.hpp:484-522 | `equalTo` holds exactly when two values denote the same thing: same kind, same double image, same items in order, same members in any order |
| Json.EqualObjects | contrib/valijson/adapters/basic_adapter.hpp:160-199 | comparing one object's members against the other's by name, plus the size check, decides equality of the two member maps |
| Json.RepeatedNamesBreakSymmetry | contrib/valijson/adapters/basic_adapter.hpp:160-199 | a concrete pair of objects with a repeated name for which `equalTo` is not symmetric, so distinct names are needed; the nlohmann adapter never presents such objects |
| Json.SmallIntegersAreExact | contrib/valijson/adapters/basic_adapter.hpp:484-498 | integers up to 2^53 keep their value in the double image through which numbers are compared |
| Json.DistinctIntegersCanBeEqual | contrib/valijson/adapters/basic_adapter.hpp:484-498 | two different 64-bit integers that strict `equalTo` takes for equal, because both round to one double |
| Json.IntegersApart | contrib/valijson/adapters/basic_adapter.hpp:484-498 | all integers from -b to b are told apart by strict `equalTo` exactly if b is at most 2^53 |
| Json.EqualToByIteration | contrib/valijson/adapters/basic_adapter.hpp:102-199 | the comparison functors driven by early-exit iteration decide exactly `EqualTo` |
| Doubles.NearestDouble | contrib/valijson/adapters/basic_adapter.hpp:484-498 | the double image of an integer of any size is a double, no double is nearer to the integer, and of two that are as near it is the even one |
| JsonPointer.TrimSlashes | contrib/valijson/schema_parser.hpp:265-279 | trimming removes exactly the slashes at the end |
| JsonPointer.ResolveInTwo | contrib/valijson/internal/json_pointer.hpp:153-251 | resolving a pointer that consists of two is resolving the second from where the first leads, and fails with an index out of range exactly if that does |
| JsonPointer.PlainTokenIsItself | contrib/valijson/internal/json_pointer.hpp:97-124 | a name without `/`, `~` and `%` is its own reference token |
| JsonPointer.ResolveAppend | contrib/valijson/internal/json_pointer.hpp:153-251 | appending `/` and a plain name to any pointer that resolves goes one step further down from there; it is out of range exactly if the name is an index too large for `std::stoul` |
| JsonPointer.StoulDecimal | contrib/valijson/internal/json_pointer.hpp:199-217 | parsing the decimal form of an index gives the index back, or an out-of-range exception from 2^64 on |
| JsonPointer.IndexTooLarge | contrib/valijson/internal/json_pointer.hpp:199-225 | below an array the decimal form of n ends in the uncaught logic error exactly if n is 2^64 or more |
| JsonPointer.OverflowsFails | contrib/valijson/internal/json_pointer.hpp:199-225 | a pointer that ends in the logic error resolves to nothing |
| Escaping.TokenEscape | contrib/valijson/internal/json_pointer.hpp:97-124 | every name whatsoever, written with `~0`, `~1` and `%25` for `~`, `/` and `%`, is read back as that name (section 3 of RFC 6901) |
| Escaping.TokenPercentEncode | contrib/valijson/internal/json_pointer.hpp:49-124 | so is every name of bytes with each of them percent-encoded, in digits of either case (section 6 of RFC 6901) |
| Escaping.CutPercent | contrib/valijson/internal/json_pointer.hpp:97-124 | a percent sign with fewer than two characters after it makes the token invalid |
| Escaping.ResolveEscaped | contrib/valijson/internal/json_pointer.hpp:153-251 | appending `/` and any name but the empty one, escaped, to any pointer that resolves goes one step further down from there, to what has that name; it is out of range exactly if the name is an index too large |
| Escaping.ResolvePercentEncoded | contrib/valijson/internal/json_pointer.hpp:153-251 | the same for percent-encoded names |
| Escaping.EmptyTokenStays | contrib/valijson/internal/json_pointer.hpp:185-187 | empty tokens are skipped, unlike in RFC 6901 |
| Escaping.StepsAre | contrib/valijson/internal/json_pointer.hpp:188-251 | one step down: to the member of that name, to the item of that index in decimal if there is one, never by `-`, and never below other values |
| Escaping.SignedIndex | contrib/valijson/internal/json_pointer.hpp:199-217 | an index may have a sign: a minus sign wraps around modulo 2^64 |
| Escaping.LooseIndex | contrib/valijson/internal/json_pointer.hpp:199-217 | space before an index and anything after its digits are ignored |
| Escaping.NoIndex | contrib/valijson/internal/json_pointer.hpp:199-217 | what begins neither with a digit nor with space or a sign is no index |
| Keywords.ChaseForgets | contrib/valijson/schema_parser.hpp:412-494 | where a finite chain of references ends does not depend on which pointers were followed before |
| Keywords.ResolveBelow | contrib/valijson/internal/json_pointer.hpp:153-251 | a resolved node contains no references that the document does not contain |
| References.FragmentReference | contrib/valijson/internal/json_reference.hpp:20-56 | a `$ref` with `#`: the document named before it, or this one if nothing is, and the pointer after it without slashes at the end |
| References.WholeReference | contrib/valijson/internal/json_reference.hpp:20-56 | a `$ref` without `#` is another document as a whole |
| References.NotText | contrib/valijson/schema_parser.hpp:367-412 | only text is a reference: without `$ref` a node is concrete, any other value of `$ref` is an error |
| References.EscapedReferenceLeads | contrib/valijson/schema_parser.hpp:405-494 | in every document: a reference to a member of any object that a pointer leads to, its name escaped, leads to that member |
| References.AbsoluteIs | contrib/valijson/internal/uri.hpp:10-20 | a URI counts as absolute if `://` occurs anywhere in it (`RelativeIs`: not if it has no colon) |
| References.KeyIs | contrib/valijson/schema_parser.hpp:415-423 | the key of a reference in the cache is the URI, if there is one, with the pointer after it |
| Readability.ReadExactly | contrib/valijson/schema_parser.hpp:571-955 | on all JSON values: a node can be read if and only if it is an object in which the value of every keyword is fit for it, keyword by keyword, or stands for a boolean; it then accepts nothing exactly if it is `false` |
| Readability.KeywordsInOrder | contrib/valijson/schema_parser.hpp:627-952 | every keyword gives at most one constraint, and the constraints come in the order of the keywords in the source |
| Keywords.ReadWritten | contrib/valijson/schema_parser.hpp:571-955 | every subschema read from a node is written at a keyword, element or entry of that node, and the path suffix handed down for it is the one for that place |
| Keywords.ReadBelow | contrib/valijson/schema_parser.hpp:571-955 | every subschema read from a node lies strictly inside the node |
| Reachability.PlacedBelow | contrib/valijson/schema_parser.hpp:360-494 | following references and handing down paths never leads out of the document |
| Weights.ReadWeight | contrib/valijson/schema_parser.hpp:571-955 | all subschemas of a node together hold fewer schema nodes than the node: no part of it is compiled twice |
| Weights.SchemaNodesFit | contrib/valijson/schema_parser.hpp:571-955 | a schema has no more schema nodes than JSON values, references not followed |
| Keywords.NameSet | contrib/valijson/schema_parser.hpp:2174-2188 | the set of names built from an array has exactly the strings of the array |
| Schemas.Schema.CreateSubschema | contrib/valijson/schema.hpp:96-115 | a fresh subschema without constraints is added and nothing else changes |
| Schemas.Schema.AddConstraintToSubschema | contrib/valijson/schema.hpp:83-89 | the constraint is appended to that subschema alone; refused exactly for the shared empty subschema and for pointers the schema does not own |
| Schemas.Schema.SetAlwaysInvalid | contrib/valijson/schema.hpp:133-136 | the flag of that subschema alone is set, under the same ownership check |
| Schemas.SchemaCache.Update | contrib/valijson/schema_parser.hpp:317-327 | succeeds exactly when all keys are new and distinct; then all of them map to the subschema and older entries keep theirs |
| SchemaParser.SchemaParser.MakeOrReuseSchema | contrib/valijson/schema_parser.hpp:360-494 | on all documents: ends on recursive schemas; throws only if the document cannot be compiled, and on a reference that does not resolve a logic error exactly if an index in it is too large, otherwise a runtime error; returns what the walk says is to be found here, cached or newly made for the right node, caches the followed pointers for it, keeps every earlier subschema and cache entry, and leaves exactly the keys of the walk in the cache |
| SchemaParser.SchemaParser.FollowReference | contrib/valijson/schema_parser.hpp:479-494 | a local reference that is not cached: its pointer is cached for whatever it leads to, or the exception says whether an index is too large |
| SchemaParser.SchemaParser.ReuseCached | contrib/valijson/schema_parser.hpp:421-430 | a key that is cached, of a path or of a reference: what it is cached for is returned, nothing is created, and the pointers followed so far are cached for the same |
| SchemaParser.SchemaParser.MakeChild | contrib/valijson/schema_parser.hpp:1067-2130 | for subschema i of a node: it is found as the walk comes to it, with the keys that are cached exactly then, and the cache afterwards holds the keys of the walk up to subschema i + 1 |
| SchemaParser.SchemaParser.ReuseOrPopulate | contrib/valijson/schema_parser.hpp:377-403 | a node whose path is cached gets the cached subschema and nothing is created; otherwise one is created, cached before it is filled, and filled |
| SchemaParser.SchemaParser.CacheKeys | contrib/valijson/schema_parser.hpp:317-327 | `updateSchemaCache` never throws: the followed pointers are new and distinct; every cached pointer stays linked to what it points to |
| SchemaParser.SchemaParser.PopulateSchema | contrib/valijson/schema_parser.hpp:571-955 | after it every keyword of the node is compiled into the subschema, no other subschema has changed, and the cache holds exactly the keys of the walk over the node; it adds at most the schema nodes inside the node, besides those new cache entries account for |
| SchemaParser.SchemaParser.AddConstraints | contrib/valijson/schema_parser.hpp:627-952 | all keywords of the node, one after the other: every one is compiled, and the cache holds the keys of the walk |
| SchemaParser.SchemaParser.AddConstraint | contrib/valijson/schema_parser.hpp:627-952 | one more keyword of the node is compiled into the subschema, earlier ones stay compiled, and the cache holds the keys of the walk up to there |
| SchemaParser.SchemaParser.MakeConstraint | contrib/valijson/schema_parser.hpp:1067-2130 | the constraint made has the shape of the constraint read, and every pointer in it is what was found for its subschema with the keys that were cached when the parser came to it |
| SchemaParser.SchemaParser.MakeConditionalConstraint | contrib/valijson/schema_parser.hpp:1182-1217 | the same for `if`, `then` and `else`, in the order in which they are compiled |
| SchemaParser.SchemaParser.MakeDependenciesConstraint | contrib/valijson/schema_parser.hpp:1327-1397 | the same for `dependencies` |
| SchemaParser.SchemaParser.MakeLinearItemsConstraint | contrib/valijson/schema_parser.hpp:1454-1540 | the same for the array form of `items` with `additionalItems` |
| ParserState.TupleParts | contrib/valijson/schema_parser.hpp:1461-1538 | of a tuple `additionalItems` is compiled first, then the items one after the other |
| SchemaParser.SchemaParser.MakePropertiesConstraint | contrib/valijson/schema_parser.hpp:2032-2112 | the same for `properties`, `patternProperties` and `additionalProperties` |
| SchemaParser.SchemaParser.ResolveThenPopulate | contrib/valijson/schema_parser.hpp:982-1046 | follows the references at the root without caching them and compiles the node they lead to into the root subschema |
| SchemaParser.SchemaParser.Parse | contrib/valijson/schema_parser.hpp:109-134 | if reference chains end: compiling ends; it succeeds if and only if nothing the walk comes to makes it fail, so always on readable documents; a logic error means that an index is too large; it leaves a compiled form of the document together with its cache, with at most 1 + n * (1 + number of distinct references) subschemas, n being the number of schema nodes in the largest schema it comes to; and the graph represents the document if and only if on the way no node is mistaken for another |
| CacheWalk.KeyIsCachedThen | contrib/valijson/schema_parser.hpp:417-494 | once the walk has come past a reference under a node, its key is cached, at every later subschema of that node |
| CacheWalk.KeysGrow | contrib/valijson/schema_parser.hpp:317-327 | keys that are cached stay cached for the rest of the node |
| CacheWalk.WalkedPlaced | contrib/valijson/schema_parser.hpp:360-494 | whatever the walk populates a subschema for is a concrete node that compiling can come to, found at its path |
| CompiledForms.CompiledIsReadable | contrib/valijson/schema_parser.hpp:571-955 | a document that is represented by a graph has every reachable node readable and every reachable reference resolved |
| CompiledForms.FoundIsRight | contrib/valijson/schema_parser.hpp:377-430 | what is found for a subschema that is not mistaken, cached or new, stands for the node its chain of references leads to |
| CompiledForms.LinkLeads | contrib/valijson/schema_parser.hpp:421-430 | a cached pointer stands for the node at the end of the chain of references that starts there, although each link is only known locally |
| CompiledForms.RepresentsExactly | contrib/valijson/schema_parser.hpp:360-494 | on all documents in which reference chains end: what the parser makes represents the document if and only if no concrete subschema is visited while its path is cached for another node, and every reference visited leads to a concrete node of the document |
| CompiledForms.AllMade | contrib/valijson/schema_parser.hpp:377-403 | the graph has a subschema for every target the walk comes to |
| CompiledForms.FormIsCompilable | contrib/valijson/schema_parser.hpp:360-494 | where there is a compiled form, nothing the walk comes to makes the parser fail |
| CompiledForms.ReadableIsCompilable | contrib/valijson/schema_parser.hpp:571-955 | in a readable document nothing the walk comes to makes the parser fail |
| CompiledForms.FaithfulForm | contrib/valijson/schema_parser.hpp:360-494 | where paths are faithful no node is mistaken for another, so whatever the parser leaves represents the document |
| CompiledForms.RightSettles | contrib/valijson/validation_visitor.hpp:76-105 | where no node is mistaken and every cycle of the document descends into the value, validation against whatever the parser makes comes to an end |
| CompiledForms.PlacedIsReadable | contrib/valijson/schema_parser.hpp:571-955 | in a readable document, everything that compiling comes to can be read and every reference ends at a concrete node |
| ParserState.ConsistentCached | contrib/valijson/schema_parser.hpp:317-327 | caching the followed pointers keeps every cached pointer linked and every subschema compiled |
| Compilation.SameVerdict | contrib/valijson/schema_parser.hpp:360-494 | compiler correctness: every subschema of the shared and possibly cyclic graph gives every value the verdict of the document node it stands for, references resolved on the fly |
| Compilation.GraphIsGuarded | contrib/valijson/validation_visitor.hpp:76-105 | if every cycle of the document descends into the value, so does every cycle of the graph, hence validation ends |
| JsonSchema.RootVerdict | contrib/valijson/validator.hpp:57-65 | the verdict of the root subschema is the verdict of the document |
| Meaning.DocumentMeaning | contrib/valijson/schema_parser.hpp:571-955 | the verdict of a schema node is the conjunction of what its keywords say, stated keyword by keyword on the JSON itself, with the names and the kinds of values spelled out; `true` accepts everything and `false` nothing |
| Meaning.TypeIsAsked | contrib/valijson/constraints/concrete_constraints.hpp:1191-1214 | for each of the seven names of kinds and for arrays of names: what a schema with that `type` accepts is of that kind |
| Meaning.PropertyIsSaid | contrib/valijson/validation_visitor.hpp:919-995 | a member is accepted iff it satisfies every schema of its name, every schema whose pattern is found in its name, and if there is neither the additional one (sections 6.5.4 to 6.5.6 of draft-handrews-json-schema-validation-01) |
| Meaning.TupleIsSaid | contrib/valijson/validation_visitor.hpp:366-450 | item k answers to the k-th schema, later ones to `additionalItems` (sections 6.4.1 and 6.4.2 of the same draft) |
| Paths.PlainLeads | contrib/valijson/schema_parser.hpp:2032-2112 | in plain documents (names unescaped, no remote reference spelled like a pointer, schemas for property names and schemas in `dependencies` without subschemas, no reference to the path they share with the enclosing schema or with each other) the path handed down to a schema leads to it, unless it is the path that `propertyNames` or schemas in `dependencies` share |
| Paths.PlainIsFaithful | contrib/valijson/schema_parser.hpp:2032-2112 | plain documents in this sense, all four conditions, have faithful paths |
| Mistakes.HitIsTaken | contrib/valijson/schema_parser.hpp:377-403 | on every document: a concrete subschema whose path is cached when the parser comes to it is taken for what the path leads to |
| Mistakes.MistakenHit | contrib/valijson/schema_parser.hpp:377-403 | on every document: if that is another node, the graph does not represent the document |
| Mistakes.EarlierReferenceMisleads | contrib/valijson/schema_parser.hpp:377-403 | on every document: so it is whenever an earlier subschema of a node refers to the path of a later one of the same node, and that path leads elsewhere |
| Mistakes.EarlierReferenceIsMistake | contrib/valijson/schema_parser.hpp:377-403 | the same said of the document alone, before anything is compiled |
| Mistakes.NamesAreEnclosing | contrib/valijson/schema_parser.hpp:890-894 | on every document: where a reference has led to a schema with `propertyNames`, the parser takes that schema itself for the schema of its property names |
| Mistakes.NamesAreJudgedByEnclosing | contrib/valijson/schema_parser.hpp:890-894 | so it rejects every object with a member whose name, as a string, it rejects |
| Mistakes.NamesMustFitSchema | contrib/valijson/schema_parser.hpp:890-894 | in particular every object with a member whose name, as a string, violates one of its own constraints, whatever is said about names |
| Mistakes.LeafSettles | contrib/valijson/validation_visitor.hpp:76-105 | if every reference leads straight to a schema without subschemas of the same value, validation against whatever the parser makes comes to an end, whatever is mistaken on the way |
| WrongVerdicts.KeyedIsMisjudged | contrib/valijson/schema_parser.hpp:890-894 | for all documents with one reference under `allOf` to a schema with `propertyNames` and one constraint: every compiled form rejects every object with a member whose name, as a string, violates the constraint |
| WrongVerdicts.KeyedAccepts | contrib/valijson/schema_parser.hpp:890-894 | such a document accepts every object that satisfies the constraint, if it lets names be anything |
| WrongVerdicts.RejectNamedValue | lib/include/npp/util/json_schema.h:15-50 | an instance: `validate_json_using_schema` rejects an object that the document accepts |
| WrongVerdicts.DependentIsMisjudged | contrib/valijson/schema_parser.hpp:1377-1379 | for all documents with one reference under `allOf` to the `dependencies` object, in which a schema that accepts nothing depends on a name: every compiled form accepts everything |
| WrongVerdicts.DependentRejects | contrib/valijson/schema_parser.hpp:1377-1379 | such a document rejects every object with a member of that name |
| WrongVerdicts.AcceptDependentValue | lib/include/npp/util/json_schema.h:15-50 | an instance: `validate_json_using_schema` accepts an object that the document rejects |
| WrongVerdicts.OrderedIsRight | contrib/valijson/schema_parser.hpp:654-850 | with the same reference under `not`, which is compiled after `dependencies`, nothing is mistaken |
| WrongVerdicts.OrderDecides | contrib/valijson/schema_parser.hpp:654-850 | two documents with the same `dependencies` and the same reference, of which one is compiled wrongly and the other rightly |
| WrongVerdicts.NestedIsMisjudged | contrib/valijson/schema_parser.hpp:890-894 | for all documents with one schema under `allOf`, a reference to it, and a schema for names with one schema under its own `allOf`: every compiled form rejects every object with a member whose name, as a string, the first schema rejects, because the schema for names is compiled at the path of the document |
| WrongVerdicts.NestedAccepts | contrib/valijson/schema_parser.hpp:890-894 | such a document accepts every object that the first schema accepts and whose names the other accepts |
| WrongVerdicts.RejectNestedValue | lib/include/npp/util/json_schema.h:15-50 | an instance: no reference points to the schema with `propertyNames`, and `validate_json_using_schema` rejects an object that the document accepts |
| WrongVerdicts.IndexResolves | contrib/valijson/internal/json_pointer.hpp:199-225 | for every n, whether the pointer to item n of a one-item array resolves, and when it is out of range |
| WrongVerdicts.ParseIndexDocument | contrib/valijson/schema_parser.hpp:982-1046 | compiling a document that refers to that item succeeds for n = 0, ends in a runtime error below 2^64 and in a logic error from there on |
| Validator.ValidationVisitor.ValidateSchema | contrib/valijson/validation_visitor.hpp:76-105 | in both modes the verdict is the declarative verdict of the subschema; in collecting mode the queue grows by exactly the report, in fail-fast mode nothing is written |
| Validator.ValidationVisitor.Apply | contrib/valijson/subschema.hpp:134-142 | all constraints are decided by short-circuiting, which visits none after the first that fails |
| Validator.ValidationVisitor.ApplyStrict | contrib/valijson/subschema.hpp:154-163 | the strict form stops at the first failure with the same verdict |
| Validator.ValidationVisitor.VisitAllOf | contrib/valijson/validation_visitor.hpp:125-139 | true iff every child accepts |
| Validator.ValidationVisitor.VisitAnyOf | contrib/valijson/validation_visitor.hpp:151-171 | true iff some child accepts; when none does, the children's errors are drained in order and one summary follows |
| Validator.ValidationVisitor.VisitOneOf | contrib/valijson/validation_visitor.hpp:820-851 | true iff exactly one child accepts; the children's errors are kept only when none does |
| Validator.ValidationVisitor.TryChildren | contrib/valijson/validation_visitor.hpp:1706-1757 | counts the accepting children and collects the errors of the failing ones, stopping early only where asked to |
| Validator.ValidationVisitor.VisitNot | contrib/valijson/validation_visitor.hpp:792-811 | true iff the child rejects; what the child reports is dropped |
| Validator.ValidationVisitor.VisitConditional | contrib/valijson/validation_visitor.hpp:184-211 | the condition decides which branch must accept, and reports nothing itself |
| Validator.ValidationVisitor.VisitDependencies | contrib/valijson/validation_visitor.hpp:290-321 | true iff each present name brings its required names and satisfies its schema |
| Validator.ValidationVisitor.CheckPropertyDependencies | contrib/valijson/validation_visitor.hpp:1286-1329 | the property half, with its early exit in fail-fast mode only |
| Validator.ValidationVisitor.CheckSchemaDependencies | contrib/valijson/validation_visitor.hpp:1647-1691 | the schema half, with its early exit in fail-fast mode only |
| Validator.ValidationVisitor.CheckPresent | contrib/valijson/validation_visitor.hpp:1239-1281 | true iff every name is present; reports one error for each missing one |
| Validator.ValidationVisitor.VisitContains | contrib/valijson/validation_visitor.hpp:244-271 | true iff some item is accepted |
| Validator.ValidationVisitor.VisitSingularItems | contrib/valijson/validation_visitor.hpp:1056-1097 | true iff every item is accepted, in both modes |
| Validator.ValidationVisitor.VisitLinearItems | contrib/valijson/validation_visitor.hpp:366-450 | true iff every item answers to its schema, although the later items are taken to start after as many as were accepted |
| Validator.ValidationVisitor.LinearVerdict | contrib/valijson/validation_visitor.hpp:366-450 | counting accepted items instead of looking at positions does not change the verdict |
| Validator.ValidationVisitor.VisitProperties | contrib/valijson/validation_visitor.hpp:919-995 | the three passes decide the declarative meaning of the property keywords, in both modes; what they report is what `Locations.ReportExactly` says |
| Validator.ValidationVisitor.CheckPattern | contrib/valijson/validation_visitor.hpp:1501-1553 | one pattern pass stops at the first member that fails, in both modes, and records the members it matched |
| Validator.ValidationVisitor.CheckNamed | contrib/valijson/validation_visitor.hpp:1572-1642 | the pass over named properties records the names present |
| Validator.ValidationVisitor.VisitPropertyNames | contrib/valijson/validation_visitor.hpp:1004-1019 | true iff every name, as a string, is accepted; never reports |
| Validator.ValidationVisitor.CheckUnique | contrib/valijson/validation_visitor.hpp:1147-1183 | `uniqueItems` accepts iff no two positions are equal |
| Validator.ValidationVisitor.VisitFlat | contrib/valijson/validation_visitor.hpp:222-232 | constraints without subschemas (`const`, `enum`, `required`, `type`, `uniqueItems` and checks of single values) give their declared verdict |
| Validator.Validate | contrib/valijson/validator.hpp:57-65 | the verdict of the root, and in collecting mode exactly its report |
| Validator.Drain | contrib/valijson/validation_visitor.hpp:162-167 | everything moves from the child queue to the back of the parent queue, in order |
| Validator.ValidationResults.PopError | contrib/valijson/validation_results.hpp:89-99 | errors come out in the order in which they went in |
| Reports.ThreePhases | contrib/valijson/validation_visitor.hpp:919-995 | the three phases with the cardinality test on matched names hold exactly when every member is accepted declaratively |
| Reports.MatchedByCount | contrib/valijson/validation_visitor.hpp:953-974 | the matched names are as many as the members exactly when no member is unmatched |
| Reports.AcceptedSilently | contrib/valijson/validation_visitor.hpp:88-102 | a value that is accepted leaves the error queue as it was |
| Reports.ItemsReportExactly | contrib/valijson/validation_visitor.hpp:409-446 | the report of a tuple is the one with later items starting where the tuple ends, if and only if every item with a schema of its own satisfies it, or the items taken for additional ones by mistake satisfy the additional schema as well |
| Reports.TupleReportExactly | contrib/valijson/validation_visitor.hpp:409-446 | the same for every tuple of a compiled graph |
| Reports.CoveredItemIsReported | contrib/valijson/validation_visitor.hpp:409-446 | two schemas and two items, the second failing: that item is also reported as having no schema |
| Rejections.RejectedSilently | contrib/valijson/validation_visitor.hpp:1004-1019 | a rejection leaves the queue untouched exactly when the schema is `false` or the first constraint that fails is `propertyNames` |
| Rejections.LoudLinearItems | contrib/valijson/validation_visitor.hpp:366-450 | every failing item leaves an error, even where later items are reported from the wrong start |
| Locations.ReportExactly | contrib/valijson/validation_visitor.hpp:76-105 | for every graph, every well-formed value and every error: it is in the report if and only if its place is blamed for it, which is said without queues: at every constraint that validation comes to, which errors the constraint makes itself, which subschemas it applies to what and where, and what these blame in turn |
| Locations.ConstraintSaid | contrib/valijson/validation_visitor.hpp:125-1183 | the same for one constraint: for all keywords, the loops collect exactly the errors that the constraint makes itself and those of its applications |
| Locations.ErrorsAreTrue | contrib/valijson/validation_visitor.hpp:76-1183 | every error of a report lies at a place of the validated value, and what it says is true of the value at that place: the check fails there, the property is missing, the two items are equal, the member or item named exists |
| Locations.SettledExactly | contrib/valijson/validation_visitor.hpp:940-974 | which names count as matched when a failure has ended the search for patterns: exactly those with a subschema of their own, those in which an earlier pattern is found, and those up to the failing member in which the failing pattern is found |
| Locations.SearchStops | contrib/valijson/validation_visitor.hpp:1501-1553 | if anything fails under any pattern, there is such a pattern and such a member |
| Locations.SettledIsMatched | contrib/valijson/validation_visitor.hpp:940-974 | without a failure they are the names that are matched |
| Locations.MatchedNameIsUnwanted | contrib/valijson/validation_visitor.hpp:940-974 | with two patterns and two members, the first failing: the second is reported as unwanted although its pattern is found in its name |
| ErrorOrder.SummaryComesLast | contrib/valijson/validation_visitor.hpp:76-1183 | errors found further inside come before what they made fail: the last error of a report is about the value itself, or blames one of its items |
| JsonSchema.ValidateJsonUsingSchema | lib/include/npp/util/json_schema.h:15-50 | compile and validate: an error exactly for documents that cannot be compiled, and never for those that can be read; otherwise the verdict and all reported errors, in order, of a compiled form of the document; where no node is mistaken for another, an error exactly for unreadable documents, and the verdict of the document |
| JsonSchema.ValidateBothWays | contrib/valijson/validation_visitor.hpp:88-102 | fail-fast and error-collecting runs return the same verdict for every graph and value |
| ShaConstants.KIsCubeRoots | contrib/picosha2/picosha2.h:50-61 | every round constant is the first 32 bits of the fractional part of the cube root of its prime (section 4.2.2 of FIPS 180-4) |
| ShaConstants.InitialIsSquareRoots | contrib/picosha2/picosha2.h:63-65 | every word of the initial digest is the first 32 bits of the fractional part of the square root of its prime (section 5.3.3) |
| Sha256.KIsCubeRoot | contrib/picosha2/picosha2.h:50-61 | round t uses the constant of the t-th prime |
| Sha256.InitialIsSquareRoot | contrib/picosha2/picosha2.h:63-65 | word i of the digest before the first block is that of the i-th prime |
| ShaConstants.FirstPrimes | contrib/picosha2/picosha2.h:50-61 | the primes the constants are made from are exactly those below 312 |
| ShaConstants.PrimesIncrease | contrib/picosha2/picosha2.h:50-61 | they are listed in increasing order, 64 in all |
| Sha256.AbsorbAppend | contrib/picosha2/picosha2.h:197-202 | complete blocks may be compressed in two goes: folding over a concatenation is folding twice |
| Sha256.FewestZeros | contrib/picosha2/picosha2.h:205-222 | the padding has the least number of zeros that completes a block (section 5.1.1 of FIPS 180-4) |
| Sha256.LengthIsExact | contrib/picosha2/picosha2.h:248-268 | for messages below 2^61 bytes the length field holds the digits of the exact bit length |
| Picosha2.BigSigmaWide | contrib/picosha2/picosha2.h:73-80 | rotations masked to 32 bits inside 64-bit words are the rotations of 32-bit words (section 4.1.2 of FIPS 180-4) |
| Picosha2.SmallSigmaWide | contrib/picosha2/picosha2.h:82-89 | the same for the functions of the message schedule |
| Picosha2.NextWide | contrib/picosha2/picosha2.h:117-128 | the sums of a round, taken in 64 bits and masked only at the end, are the sums modulo 2^32 of section 6.2.2 of FIPS 180-4 |
| Picosha2.SumsAreExact | contrib/picosha2/picosha2.h:117-128 | no intermediate sum of a round overflows 64 bits |
| Picosha2.ScheduleAt | contrib/picosha2/picosha2.h:95-106 | word t of the schedule satisfies the recurrence of section 6.2.2 |
| Picosha2.ExpandBlock | contrib/picosha2/picosha2.h:95-106 | the array filled in is the message schedule, each word below 2^32 |
| Picosha2.HashBlock | contrib/picosha2/picosha2.h:91-140 | the digest array holds the compression of the old digest with the block; every word is below 2^32 at loop boundaries |
| Picosha2.AddAndMask | contrib/picosha2/picosha2.h:129-139 | adding without masks and masking afterwards gives the eight sums modulo 2^32 |
| Picosha2.Hasher.constructor | contrib/picosha2/picosha2.h:184-191 | an empty message has been processed |
| Picosha2.Hasher.Process | contrib/picosha2/picosha2.h:193-203 | for any chunk: the object then stands for the old message with the chunk appended, its complete blocks in the digest and the rest in the buffer |
| Picosha2.Hasher.AddToDataLength | contrib/picosha2/picosha2.h:235-247 | the four limbs stay below 65536 and count bytes modulo 2^64 |
| Picosha2.CarryStep | contrib/picosha2/picosha2.h:235-247 | moving a carry to the next limb keeps the value |
| Picosha2.Hasher.WriteDataBitLength | contrib/picosha2/picosha2.h:248-268 | eight times the byte count modulo 2^64, most significant byte first, and nothing else is written |
| Picosha2.ShiftLimbs | contrib/picosha2/picosha2.h:253-261 | shifting limb by limb with a three-bit carry multiplies by eight modulo 2^64 |
| Picosha2.BigEndianLimbs | contrib/picosha2/picosha2.h:263-267 | two bytes of each limb, highest limb first, are the big-endian form of the value |
| Picosha2.Hasher.Finish | contrib/picosha2/picosha2.h:205-222 | both exits leave in the digest the fold over the padded message |
| Picosha2.Finished | contrib/picosha2/picosha2.h:205-222 | message and padding are the complete blocks already absorbed and the one or two blocks of `finish` |
| Picosha2.Hasher.GetHashBytes | contrib/picosha2/picosha2.h:224-232 | as many digest bytes as there is room for, big-endian, and nothing beyond |
| Picosha2.HashWhole | contrib/picosha2/picosha2.h:288-296 | the output is the SHA-256 of the input |
| Picosha2.HashBuffered | contrib/picosha2/picosha2.h:298-317 | the output is the SHA-256 of the input for every positive buffer size, hence equal to that of the other driver |
| ShaExample.AbcBytes | contrib/picosha2/picosha2.h:288-296 | the digest of `abc` is the published one, all 32 bytes, computed word by word and round by round |
| LinearMachine.JumpIsLinear | contrib/xoshiro-cpp/xoshiro-cpp.h:749-777 | a jump is linear over GF(2) |
| LinearMachine.JumpCommutesWithRun | contrib/xoshiro-cpp/xoshiro-cpp.h:749-777 | jumping and then running n steps is running n steps and then jumping, for every state and every n |
| LinearMachine.JumpsCommute | contrib/xoshiro-cpp/xoshiro-cpp.h:749-807 | two jumps may be taken in either order |
| LinearMachine.RunIsInjective | contrib/xoshiro-cpp/xoshiro-cpp.h:736-747 | different states stay different after any number of steps |
| LinearMachine.NeverZero | contrib/xoshiro-cpp/xoshiro-cpp.h:736-747 | only the zero state runs into zero |
| Xoshiro.MixIsBijective | contrib/xoshiro-cpp/xoshiro-cpp.h:685-692 | SplitMix64's output function has an inverse on both sides |
| Xoshiro.SplitMix64.Next | contrib/xoshiro-cpp/xoshiro-cpp.h:685-692 | the counter advances by the odd constant and its mix is returned |
| Xoshiro.SplitMix64.GenerateSeedSequence | contrib/xoshiro-cpp/xoshiro-cpp.h:694-704 | seed word i is the mix of the counter advanced i + 1 times |
| Xoshiro.SeedWordsDiffer | contrib/xoshiro-cpp/xoshiro-cpp.h:694-731 | no two words of a seed sequence are equal, for every seed and every length up to 2^64 |
| Xoshiro.Xoshiro256IsLinear | contrib/xoshiro-cpp/xoshiro-cpp.h:736-747 | the xoshiro256 transition is linear over GF(2) and has an inverse on both sides |
| Xoshiro.Xoshiro256.Next | contrib/xoshiro-cpp/xoshiro-cpp.h:736-747 | the in-place sequence of xors, shift and rotation computes the transition, and the result is scrambled from the old state |
| Xoshiro.Xoshiro256.Evaluate | contrib/xoshiro-cpp/xoshiro-cpp.h:749-777 | the nested loops compute the xor of the i-th successors over the set bits i of the constants |
| Xoshiro.Xoshiro256.Jump | contrib/xoshiro-cpp/xoshiro-cpp.h:749-777 | the state becomes the jump polynomial applied to it |
| Xoshiro.Xoshiro256.LongJump | contrib/xoshiro-cpp/xoshiro-cpp.h:779-807 | the state becomes the long-jump polynomial applied to it |
| Xoshiro.SeededNeverZero256 | contrib/xoshiro-cpp/xoshiro-cpp.h:730-747 | a seeded xoshiro256 generator never reaches the zero state, after any number of steps |
| Xoshiro.Jumps256 | contrib/xoshiro-cpp/xoshiro-cpp.h:749-807 | `jump` and `longJump` commute with each other and with any number of steps |
| Xoshiro.Xoroshiro128IsLinear | contrib/xoshiro-cpp/xoshiro-cpp.h:1045-1054 | the xoroshiro128 transitions, with both sets of rotations, are linear and invertible |
| Xoshiro.Xoroshiro128.Next | contrib/xoshiro-cpp/xoshiro-cpp.h:1045-1054 | computes the transition in place and scrambles the old state |
| Xoshiro.Xoroshiro128.Evaluate | contrib/xoshiro-cpp/xoshiro-cpp.h:1056-1078 | the nested loops compute the xor of the i-th successors over the set bits i of the constants |
| Xoshiro.SeededNeverZero128 | contrib/xoshiro-cpp/xoshiro-cpp.h:1039-1054 | a seeded xoroshiro128 generator never reaches the zero state |
| Xoshiro.Jumps128 | contrib/xoshiro-cpp/xoshiro-cpp.h:1056-1102 | `jump` and `longJump` commute with each other and with any number of steps |
| XoshiroExamples.SplitMixOutputs | contrib/xoshiro-cpp/xoshiro-cpp.h:685-692 | the first four outputs from the seed 1234567 are the published ones |
| XoshiroExamples.Xoshiro256Outputs | contrib/xoshiro-cpp/xoshiro-cpp.h:736-999 | so are those of xoshiro256+, xoshiro256++ and xoshiro256** from the state 1, 2, 3, 4 |
| XoshiroExamples.Xoroshiro128Outputs | contrib/xoshiro-cpp/xoshiro-cpp.h:1045-1300 | and those of xoroshiro128+, xoroshiro128++ and xoroshiro128** from the state 1, 2 |
| XoshiroExamples.OneTerm | contrib/xoshiro-cpp/xoshiro-cpp.h:756-774 | a polynomial with a single binary digit, digit b of word i, is the term of exponent 64 i + b |
| Base64.MapsInverse | contrib/jwt/base64.hpp:57-75 | the decoding map undoes the encoding map, which never produces padding or the URL-safe substitutes |
| Base64.DecodeEncode | contrib/jwt/base64.hpp:89-254 | decoding what was encoded gives it back, for every byte string (section 4 of RFC 4648) |
| Base64.EncodeDecode | contrib/jwt/base64.hpp:89-254 | encoding what was decoded gives it back, for texts of complete groups |
| Base64.UriRoundTrip | contrib/jwt/base64.hpp:268-330 | URL-safe decoding undoes encoding, substitution and dropping of the padding, for every byte string (section 5 of RFC 4648) |
| Base64.UriEncodeIsSafe | contrib/jwt/base64.hpp:268-288 | only letters, digits, `-` and `_` remain |
| Base64.UriIsDecodable | contrib/jwt/base64.hpp:301-330 | the decoder stays inside its buffer for every input that reaches it through `base64_uri_decode` |
| Base64.DecodableExactly | contrib/jwt/base64.hpp:191-254 | for every input: decoding stays inside the buffer exactly if it returns early, or the last group is complete or has one character only, or what was dropped from the end leaves room for another group |
| Base64.UnpaddedTextOverruns | contrib/jwt/base64.hpp:191-254 | three characters given directly to `base64_decode` would be written past its buffer |
| Base64.BrokenTextOverruns | contrib/jwt/base64.hpp:191-254 | so would three characters of which the second is outside the alphabet, because only the first of a group is checked |
| Base64.Base64Encode | contrib/jwt/base64.hpp:89-139 | the loops compute the encoding, every write inside the buffer |
| Base64.Base64Decode | contrib/jwt/base64.hpp:191-254 | the loops compute the decoding, fall-through, early return and all, every write inside the buffer |
| Base64.Base64UriEncode | contrib/jwt/base64.hpp:268-288 | compaction in place yields the URL-safe text, never overwrites a character before reading it, and touches nothing from its end on |
| Base64.Base64UriDecode | contrib/jwt/base64.hpp:301-330 | substitution, padding to a multiple of four and decoding, for ASCII input of every length |
| Base64Examples.FirstSixteen | contrib/jwt/base64.hpp:57-75 | the alphabet of section 4 of RFC 4648, A to P (the other three parts are `SecondSixteen`, `ThirdSixteen` and `LastSixteen`) |
| Base64Examples.LastSixteen | contrib/jwt/base64.hpp:57-75 | the end of that alphabet, w to z, the digits, `+` and `/` |
| Base64Examples.UriAlphabet | contrib/jwt/base64.hpp:268-330 | in the alphabet of section 5 of RFC 4648 `-` stands for `+` and `_` for `/`, in both directions, and nothing else changes; `=` is the padding |
| Base64Examples.EncodeFoob | contrib/jwt/base64.hpp:89-139 | the test vector of section 10 of RFC 4648 with two characters of padding (all seven are proved) |
| Base64Examples.EncodeFoobar | contrib/jwt/base64.hpp:89-139 | the last of these vectors |
| Base64Examples.EncodeForUri | contrib/jwt/base64.hpp:268-288 | three bytes whose encoding is `+//+`, and `-__-` in a URL |
| Uuids.RebuildStr | contrib/sole/sole.h:341-364 | `rebuild` inverts `str`, for all 2^128 values |
| Uuids.RebuildBase62 | contrib/sole/sole.h:366-386 | `rebuild` inverts `base62`, for all 2^128 values |
| Uuids.ElevenDigits | contrib/sole/sole.h:366-386 | each 64-bit half needs at most eleven digits in base 62, so 24 characters hold both, the separator and the terminator |
| Uuids.PrintHex | contrib/sole/sole.h:341-364 | the two loops print the hexadecimal form |
| Uuids.PrintBase62 | contrib/sole/sole.h:366-386 | the base 62 form is written backwards, never before the start of the buffer |
| Uuids.InsideExactly | contrib/sole/sole.h:758-804 | `rebuild` reads nothing beyond the end of its argument, terminator included, in either notation, exactly if that has at most one separator, or at least 35 characters, or at least 23 and no separator at 8, 13, 18 and 23 |
| Uuids.TakenIsRead | contrib/sole/sole.h:764-775 | in base 62 notation the digits folded are the characters at exactly the positions read |
| Uuids.Parse | contrib/sole/sole.h:758-804 | on all such strings: the number of separators selects the notation, and digits are folded modulo 2^64 |
| UuidVersion1.Clock.GetTime | contrib/sole/sole.h:468-487 | the reading, or one tick after the last time if the clock stalled or went backwards |
| UuidVersion1.TickForward | contrib/sole/sole.h:477-482 | the clock moves forward exactly unless it stands at 2^64 - 1 |
| UuidVersion1.TickIsLeast | contrib/sole/sole.h:477-482 | the new time is the least one that is after the last one and not before the reading |
| UuidVersion1.TimesIncrease | contrib/sole/sole.h:468-487 | times increase strictly over any run, whatever the readings, while the clock has not come to its end |
| UuidVersion1.BoundedReadings | contrib/sole/sole.h:468-487 | a bound on the readings keeps the clock from its end |
| UuidVersion1.UpperFields | contrib/sole/sole.h:681-716 | the upper half: 32 low bits of the time, then 16, then version 1 and the next 12 (section 4.1.2 of RFC 4122) |
| UuidVersion1.LowerFields | contrib/sole/sole.h:681-716 | the lower half: the variant and 14 bits of clock sequence, then the MAC address |
| UuidVersion1.UpperRecovers | contrib/sole/sole.h:316-327 | the printed shifts recover the low 60 bits of the time and the version (section 4.1.2 of RFC 4122) |
| UuidVersion1.LowerRecovers | contrib/sole/sole.h:318-336 | they recover the clock sequence, the MAC address and the variant |
| UuidVersion1.SameIdentifier | contrib/sole/sole.h:681-716 | two identifiers of one machine are equal exactly if their times agree in the low 60 bits |
| UuidVersion1.RunOfIdentifiers | contrib/sole/sole.h:681-716 | any two identifiers of one run differ if the clock moved by less than 2^60 ticks between them |
| UuidVersion1.Uuid1 | contrib/sole/sole.h:681-716 | assembles the identifier from the clock and the MAC address |
| UuidExamples.GregorianIs | contrib/sole/sole.h:682-683 | the offset is the time from 15 October 1582 to 1 January 1970 in units of 100 ns, counted in the days of the calendar |
| UuidExamples.ReadingIsWholeUnits | contrib/sole/sole.h:468-475 | a reading that does not overflow is the time in whole units of 100 ns |
| UuidExamples.StrExample | contrib/sole/sole.h:341-364 | the example of section 3 of RFC 4122 is printed as it is there |
| UuidExamples.Digit62Is | contrib/sole/sole.h:366-386 | the digits of base 62 are the decimal digits, the capital and the small letters, in this order |
| UuidExamples.HexValueIs | contrib/sole/sole.h:777-800 | hexadecimal digits are read in either case; anything else counts as zero |
| PayloadCache.PayloadAdapterMemory.SetPayload | lib/src/payload_adapter_memory.cpp:96-112 | a payload that is ready and has an end time is cached, and the cache trimmed; any other is refused and nothing changes; the byte counter is the sum of the cached sizes |
| PayloadCache.PayloadAdapterMemory.MaintainCacheWithinLimits | lib/src/payload_adapter_memory.cpp:144-157 | evicts exactly when several items are cached and a high mark is reached, from the front, never from an empty cache |
| PayloadCache.ExcessIsLeast | lib/src/payload_adapter_memory.cpp:144-157 | eviction always ends with at most as many bytes and as many items as the low marks say, and takes no item more than that |
| PayloadCache.RunsKeepSuffix | lib/src/payload_adapter_memory.cpp:96-157 | over any run of calls, limits changed in between, the cache is a suffix of what was accepted, and right after an acceptance it holds a single item, or fewer bytes and items than the high marks of that moment, or no more than the low marks |
| PayloadCache.PayloadAdapterMemory.GetPayload | lib/src/payload_adapter_memory.cpp:33-94 | said in fields: the answer lies in the directory and has the name that are asked for, has the first of the flavors (those of the path, or else those of the service) under which anything fits, was entered and not yet deactivated at the limit, and contains the event time in its interval, or has the run and sequence number; it is the oldest such payload, and there is none exactly if the request is malformed or nothing fits |
| PayloadCache.EntryTimeIsLimit | lib/src/payload_adapter_memory.cpp:60-69 | the limit is the time of the first override whose path begins the path asked for, read as a signed number, or else that of the request |
| PayloadCache.OneLimit | lib/src/payload_adapter_memory.cpp:60-69 | there is only one such limit |
| PayloadCache.OneAnswer | lib/src/payload_adapter_memory.cpp:71-92 | there is at most one such answer |
| PayloadCache.PayloadAdapterMemory.SetCacheItemLimit | lib/include/npp/cdb/payload_adapter_memory.h:52 | as written: the second argument becomes the high mark for bytes |
| PayloadCache.ItemLimitSlip | lib/include/npp/cdb/payload_adapter_memory.h:52 | the written and the named function start eviction at the same moments exactly if the new mark equals both old high marks, or eviction starts at every second item either way |
| PayloadCache.HundredItemsBecomeHundredBytes | lib/include/npp/cdb/payload_adapter_memory.h:52 | with the default limits, asking for at most 100 items makes eviction start at 100 bytes |

## Left out

- Remote documents and `id`: no fetch function is given, so references to other documents are errors; a node whose `id` could be a string counts as unreadable.
- Draft 3 and Draft 4 forms, weak types, custom constraint builders, allocators, and the texts of errors; only the order and the data of errors are modelled.
- Regular expressions, checks on single values (bounds, lengths, counts, `multipleOf`, `pattern`) and the recognition of URNs are parameters of the model.
- Which exception surfaces when several are due: all keywords of a node are read before its subschemas are compiled.
- Objects are member lists in the adapter's order of iteration with distinct names, as the nlohmann adapter presents them; other adapters are not modelled.
- JsonSchema.ValidateJsonUsingSchema: leaves out documents in which some cycle of subschemas does not descend into the value, although the source handles such a document on values that never reach the cycle; verdicts of a graph are defined by ranks that hold for all values.
- Descriptions, titles and ids of subschemas have no effect on verdicts and are checked for their type only.
- Locks of the memory adapter, and payload data filled in after caching: sizes are fixed once cached.
- Decoding of request paths: the adapter is given the decoded parts; overrides come in the order of iteration.
- Picosha2.ShiftLimbs: models `|` on disjoint bits as a sum.
- UuidVersion1.Uuid1: models shifts and masks as divisions and remainders; MAC lookup and the clock are parameters.
- Hexadecimal output of digests, versions 0 and 4 of UUIDs, and the textual output of `pretty`.
- The 32-bit xoshiro128 family, `min`, `max` and serialisation, conversion to floating point, and that `jump` equals 2^128 steps.
- Base64 input outside ASCII, and lengths at which the counters of type `int` overflow.
- HTTP, database and file adapters, JWT signing, command line and configuration.
