/** `validate_json_using_schema`: compile a document, then validate a value against it. */
module JsonSchema {
  import opened Wrappers
  import opened Json
  import opened Schemas
  import opened JsonPointer
  import opened Keywords
  import opened ParserState
  import opened Semantics
  import opened Reachability
  import opened CacheWalk
  import opened Compilation
  import opened CompiledForms
  import opened Reports
  import opened Validator
  import opened SchemaParser

  /** The end of a call: the document could not be compiled, or the verdict together with all errors
      that were collected. */
  datatype Validation = Uncompiled | Valid | Invalid(errors: seq<Error>)

  /** The verdict on a compiled document is the verdict on the document itself. */
  lemma RootVerdict(x: Externals, doc: Value, g: Graph, origin: seq<Target>, v: Value)
    requires Guarded(x, doc) && Represents(x, doc, g, origin)
    ensures GraphGuarded(g) && Accepts(x, g, ROOT, v) == SchemaAccepts(x, doc, v)
  {
    GraphIsGuarded(x, doc, g, origin);
    SameVerdict(x, doc, g, origin, ROOT, v);
  }

  /** The graph gives this result on the value. */
  ghost predicate Decides(x: Externals, g: Graph, v: Value, r: Validation) {
    && GraphGuarded(g) && ROOT < |g|
    && match r
       case Uncompiled => false
       case Valid => Accepts(x, g, ROOT, v)
       case Invalid(errors) => !Accepts(x, g, ROOT, v) && errors == Report(x, g, ROOT, v, [Root])
  }

  /** The result is that of something the parser may have compiled the document into. */
  ghost predicate Decided(x: Externals, doc: Value, v: Value, r: Validation) {
    exists g, origin, entries :: CompiledForm(x, doc, g, origin, entries) && Decides(x, g, v, r)
  }

  /** Fails exactly on documents that cannot be compiled, and never on those that can be read; otherwise
      the verdict and the errors are those of a compiled form of the document.  Validation against that
      must come to an end.  If no node is mistaken for another on the way, it fails exactly on documents
      that cannot be read, and the verdict is that of the document. */
  method ValidateJsonUsingSchema(x: Externals, data: Value, doc: Value) returns (r: Validation)
    requires ChainsEnd(x, doc) && Settles(x, doc) && WellFormed(data)
    ensures r.Uncompiled? <==> !Compilable(x, doc)
    ensures r.Uncompiled? ==> !Readable(x, doc)
    ensures !r.Uncompiled? ==> Decided(x, doc, data, r)
    ensures !r.Uncompiled? && Faithful(x, doc) ==> NoMistake(x, doc)
    ensures NoMistake(x, doc) ==> (r.Uncompiled? <==> !Readable(x, doc))
    ensures NoMistake(x, doc) && Guarded(x, doc) ==> (r.Valid? <==> SchemaAccepts(x, doc, data))
  {
    hide Represents, ChainsEnd, Faithful, NoMistake, Compilable, Accepts, SchemaAccepts, Report, GraphGuarded,
         Guarded, Readable, CompiledForm, StaysWithin, Overflows, Resolve, SomeIndexTooLarge, LargestSchema, Pointers,
         Decides, ReadReference;
    var parser := new SchemaParser(x);
    var parsed, schema, entries := parser.Parse(doc);
    if Guarded(x, doc) { GuardedIsReadable(x, doc); }
    if !parsed.Ok? { return Uncompiled; }
    var g := schema.subschemas;
    ghost var origin := schema.origin;
    FormHasRoot(x, doc, g, origin, entries);
    r := ValidateCompiled(x, g, data);
    if NoMistake(x, doc) && Guarded(x, doc) { VerdictIsRight(x, doc, g, origin, data, r); }
  }

  lemma VerdictIsRight(x: Externals, doc: Value, g: Graph, origin: seq<Target>, v: Value, r: Validation)
    requires Guarded(x, doc) && Represents(x, doc, g, origin) && Decides(x, g, v, r)
    ensures !r.Uncompiled? && (r.Valid? <==> SchemaAccepts(x, doc, v))
  {
    hide Represents, Guarded, SchemaAccepts, Accepts, Report;
    RootVerdict(x, doc, g, origin, v);
  }

  /** Validates the value against the root, collecting errors. */
  method ValidateCompiled(x: Externals, g: Graph, data: Value) returns (r: Validation)
    requires GraphGuarded(g) && ROOT < |g| && WellFormed(data)
    ensures !r.Uncompiled? && Decides(x, g, data, r)
  {
    hide Accepts, Report, GraphGuarded;
    var results := new ValidationResults();
    var ok := Validate(x, g, data, results);
    if ok { return Valid; }
    var errors := TakeErrors(results);
    return Invalid(errors);
  }

  lemma GuardedIsReadable(x: Externals, doc: Value)
    requires Guarded(x, doc)
    ensures Readable(x, doc)
  {
    hide Closed;
    var rank :| Ranks(x, doc, rank);
    assert Closed(x, doc, rank.Keys);
  }

  lemma FormHasRoot(x: Externals, doc: Value, g: Graph, origin: seq<Target>, entries: Entries)
    requires CompiledForm(x, doc, g, origin, entries)
    ensures ROOT < |g|
  {
  }

  /** Pops the errors one by one, oldest first. */
  method TakeErrors(results: ValidationResults) returns (errors: seq<Error>)
    modifies results
    ensures errors == old(results.errors)
  {
    errors := [];
    var e := results.PopError();
    while e.Some?
      invariant errors + (if e.Some? then [e.value] else []) + results.errors == old(results.errors)
      invariant e.None? ==> results.errors == []
      decreases |results.errors|, e.Some?
    {
      errors := errors + [e.value];
      e := results.PopError();
    }
  }

  /** Whether or not errors are collected makes no difference to the verdict. */
  method ValidateBothWays(x: Externals, g: Graph, data: Value)
    returns (fast: bool, collecting: bool, errors: seq<Error>)
    requires GraphGuarded(g) && ROOT < |g| && WellFormed(data)
    ensures fast == collecting == Accepts(x, g, ROOT, data)
    ensures errors == Report(x, g, ROOT, data, [Root])
    ensures fast ==> errors == []
  {
    fast := Validate(x, g, data, null);
    var results := new ValidationResults();
    collecting := Validate(x, g, data, results);
    errors := results.errors;
    if fast { AcceptedSilently(x, g, ROOT, data, [Root]); }
  }
}
