/** Constraints, subschemas, the `Schema` that owns them, and the parser's schema cache. */
module Schemas {
  import opened Wrappers
  import opened Json

  datatype JsonType = AnyT | ArrayT | BooleanT | IntegerT | NullT | NumberT | ObjectT | StringT

  datatype Dependency = Dependency(name: string, needs: seq<string>)

  datatype Named<C> = Named(name: string, child: C)

  /** A constraint without subschemas.  `Leaf` is any keyword whose check looks at one value only
      (bounds, lengths, counts, multipleOf, pattern); its meaning is a parameter of the model. */
  datatype Flat =
    | Const(value: Value)
    | Enum(values: seq<Value>)
    | Required(names: seq<string>)
    | Type(types: set<JsonType>)
    | UniqueItems
    | Leaf(keyword: string, argument: Value)

  /** A constraint over subschemas of type C: pointers once compiled, document places before. */
  datatype Constraint<C> =
    | AllOf(children: seq<C>)
    | AnyOf(children: seq<C>)
    | OneOf(children: seq<C>)
    | Not(child: C)
    | Conditional(ifChild: C, thenChild: Option<C>, elseChild: Option<C>)
    | Dependencies(properties: seq<Dependency>, schemas: seq<Named<C>>)
    | Contains(child: C)
    | SingularItems(child: C)
    | LinearItems(children: seq<C>, additional: Option<C>)
    | Properties(named: seq<Named<C>>, patterns: seq<Named<C>>, additional: Option<C>)
    | PropertyNames(child: C)
    | Plain(flat: Flat)

  datatype Subschema<C> = Subschema(alwaysInvalid: bool, constraints: seq<Constraint<C>>)

  function Children<C>(named: seq<Named<C>>): (r: seq<C>)
    ensures |r| == |named|
    ensures forall k :: 0 <= k < |named| ==> r[k] == named[k].child
  {
    seq(|named|, k requires 0 <= k < |named| => named[k].child)
  }

  function Optionally<C>(c: Option<C>): seq<C> {
    if c.Some? then [c.value] else []
  }

  /** Subschemas applied to the same value as the constraint itself. */
  function InPlace<C>(c: Constraint<C>): seq<C> {
    match c
    case AllOf(cs) => cs
    case AnyOf(cs) => cs
    case OneOf(cs) => cs
    case Not(s) => [s]
    case Conditional(i, t, e) => [i] + Optionally(t) + Optionally(e)
    case Dependencies(_, schemas) => Children(schemas)
    case _ => []
  }

  /** Subschemas applied to something inside the value. */
  function Inside<C>(c: Constraint<C>): seq<C> {
    match c
    case Contains(s) => [s]
    case SingularItems(s) => [s]
    case LinearItems(cs, additional) => cs + Optionally(additional)
    case Properties(named, patterns, additional) =>
      Children(named) + Children(patterns) + Optionally(additional)
    case PropertyNames(s) => [s]
    case _ => []
  }

  function Names<C>(named: seq<Named<C>>): (r: seq<string>)
    ensures |r| == |named|
    ensures forall k :: 0 <= k < |named| ==> r[k] == named[k].name
  {
    seq(|named|, k requires 0 <= k < |named| => named[k].name)
  }

  /** What is left of a constraint without its subschemas. */
  datatype Shape =
    | Several(keyword: string, count: nat)
    | Single(keyword: string)
    | Branches(hasThen: bool, hasElse: bool)
    | Dependents(properties: seq<Dependency>, names: seq<string>)
    | Tuple(count: nat, hasAdditional: bool)
    | Members(named: seq<string>, patterns: seq<string>, hasAdditional: bool)
    | Childless(flat: Flat)

  function ShapeOf<C>(c: Constraint<C>): Shape {
    match c
    case AllOf(cs) => Several("allOf", |cs|)
    case AnyOf(cs) => Several("anyOf", |cs|)
    case OneOf(cs) => Several("oneOf", |cs|)
    case Not(_) => Single("not")
    case Conditional(_, t, e) => Branches(t.Some?, e.Some?)
    case Dependencies(ps, ss) => Dependents(ps, Names(ss))
    case Contains(_) => Single("contains")
    case SingularItems(_) => Single("items")
    case LinearItems(cs, a) => Tuple(|cs|, a.Some?)
    case Properties(ns, ps, a) => Members(Names(ns), Names(ps), a.Some?)
    case PropertyNames(_) => Single("propertyNames")
    case Plain(f) => Childless(f)
  }

  /** The end of a parse: a value, or the exception that was thrown. */
  datatype Outcome<+T> = Ok(value: T) | RuntimeError | LogicError {
    predicate IsFailure() { !Ok? }
    function PropagateFailure<U>(): Outcome<U>
      requires IsFailure()
    {
      if RuntimeError? then RuntimeError else LogicError
    }
    function Extract(): T
      requires Ok?
    {
      value
    }
  }

  /** A pointer to a subschema: an index into its `Schema`. */
  type Pointer = nat
  const ROOT: Pointer := 0
  const EMPTY: Pointer := 1

  /** What a subschema was made for: the shared empty schema, or a concrete schema node found at a
      path, which is the pointer of a reference or was handed down from the enclosing node; `keys` are
      the keys that are cached when it begins to be populated. */
  datatype Target = Anything | Node(node: Value, path: string, keys: set<string>)

  /** `Schema`: owns its subschemas.  The root subschema is the schema itself, and one empty
      subschema is shared by all constraints that need it. */
  class Schema {
    var subschemas: seq<Subschema<Pointer>>
    ghost var origin: seq<Target>

    constructor (ghost rootTarget: Target)
      ensures subschemas == [Subschema(false, []), Subschema(false, [])]
      ensures origin == [rootTarget, Anything]
    {
      subschemas := [Subschema(false, []), Subschema(false, [])];
      origin := [rootTarget, Anything];
    }

    /** A fresh subschema without constraints; no other changes. */
    method CreateSubschema(ghost target: Target) returns (p: Pointer)
      modifies this
      ensures p == |old(subschemas)|
      ensures subschemas == old(subschemas) + [Subschema(false, [])]
      ensures origin == old(origin) + [target]
    {
      p := |subschemas|;
      subschemas := subschemas + [Subschema(false, [])];
      origin := origin + [target];
    }

    /** `mutableSubschema`: everything the schema owns except the shared empty subschema. */
    predicate Mutable(p: Pointer)
      reads this
    {
      p != EMPTY && p < |subschemas|
    }

    method AddConstraintToSubschema(c: Constraint<Pointer>, p: Pointer) returns (r: Outcome<()>)
      modifies this`subschemas
      ensures r.Ok? <==> old(Mutable(p))
      ensures !r.LogicError?
      ensures r.Ok? ==> subschemas == old(subschemas)[p := Subschema(old(subschemas[p].alwaysInvalid),
                                                                     old(subschemas[p].constraints) + [c])]
      ensures !r.Ok? ==> subschemas == old(subschemas)
    {
      if !Mutable(p) { return RuntimeError; }
      var s := subschemas[p];
      subschemas := subschemas[p := s.(constraints := s.constraints + [c])];
      return Ok(());
    }

    method SetAlwaysInvalid(p: Pointer, value: bool) returns (r: Outcome<()>)
      modifies this`subschemas
      ensures r.Ok? <==> old(Mutable(p))
      ensures !r.LogicError?
      ensures r.Ok? ==> subschemas == old(subschemas)[p := Subschema(value, old(subschemas[p].constraints))]
      ensures !r.Ok? ==> subschemas == old(subschemas)
    {
      if !Mutable(p) { return RuntimeError; }
      subschemas := subschemas[p := subschemas[p].(alwaysInvalid := value)];
      return Ok(());
    }
  }

  ghost predicate Distinct(keys: seq<string>) {
    forall j, k :: 0 <= j < k < |keys| ==> keys[j] != keys[k]
  }

  ghost predicate AllNew(entries: map<string, Pointer>, keys: seq<string>) {
    forall k :: 0 <= k < |keys| ==> keys[k] !in entries
  }

  class SchemaCache {
    var entries: map<string, Pointer>

    constructor ()
      ensures entries == map[]
    {
      entries := map[];
    }

    /** `updateSchemaCache`: inserts key by key and throws a logic error at the first key that is
        already there, which happens exactly when the keys repeat or one was cached before. */
    method Update(keys: seq<string>, p: Pointer) returns (r: Outcome<()>)
      modifies this
      ensures r.Ok? <==> Distinct(keys) && AllNew(old(entries), keys)
      ensures !r.Ok? ==> r.LogicError?
      ensures r.Ok? ==> entries.Keys == old(entries.Keys) + (set k <- keys)
      ensures r.Ok? ==> forall k :: k in entries ==>
        entries[k] == if k in old(entries) then old(entries[k]) else p
    {
      for i := 0 to |keys|
        invariant entries.Keys == old(entries.Keys) + (set k <- keys[..i])
        invariant forall k :: k in entries ==>
          entries[k] == if k in old(entries) then old(entries[k]) else p
        invariant Distinct(keys[..i]) && AllNew(old(entries), keys[..i])
      {
        if keys[i] in entries {
          if keys[i] !in old(entries) {
            var j :| 0 <= j < i && keys[..i][j] == keys[i];
            assert !Distinct(keys);
          }
          return LogicError;
        }
        assert keys[..i + 1] == keys[..i] + [keys[i]];
        entries := entries[keys[i] := p];
      }
      assert keys[..|keys|] == keys;
      return Ok(());
    }
  }
}
