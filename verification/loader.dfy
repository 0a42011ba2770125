/**
 * The entry point: `Load` checks that its argument is a pointer to a struct,
 * scans and binds the record's annotations, and populates the record.
 */
module Loader {
  import opened Wrappers
  import opened Reflect
  import opened Errors
  import opened Scanner
  import opened Binder
  import opened Populator

  /**
   * `canLoad`: a value that is not a pointer is refused first; a pointer whose
   * target is not a struct (a nil pointer included) is refused next; only a
   * pointer to a struct is accepted.
   */
  function CanLoad(arg: Arg): (err: Option<LoadError>)
    ensures err == Some(ErrValueNotStructPointer) <==> arg.Direct?
    ensures err == Some(ErrValueNotStruct) <==> arg.Pointer? && arg.target != Some(Direct(Struct))
    ensures err.None? <==> arg == Pointer(Some(Direct(Struct)))
  {
    if KindOf(arg) != Ptr then Some(ErrValueNotStructPointer)
    else if ElemKind(arg) != Struct then Some(ErrValueNotStruct)
    else None
  }

  /** The resolver the populator queries once the record's annotations are bound to the providers. */
  function FieldResolver(fields: seq<Field>, providers: Providers): (resolve: Resolver)
  {
    name => Resolve(Bind(fields, providers), name)
  }

  /** The resolver answers nothing for a name that no annotated, exported field of the record carries. */
  lemma UnannotatedUnresolved(fields: seq<Field>, providers: Providers, name: string)
    requires forall i :: 0 <= i < |fields| && fields[i].name == name ==> !AnnotatedForAny(fields[i])
    ensures FieldResolver(fields, providers)(name).None?
  {
    if Resolve(Bind(fields, providers), name).Some? {
      ResolvedIsAnnotated(fields, providers, name);
      assert false;
    }
  }

  /**
   * `Config.Load(structRef)`. When `arg` passes `CanLoad`, `fields` and
   * `record` describe the struct it points to; the record is then populated
   * from the providers. A refused argument leaves the record as it was.
   */
  method Load(arg: Arg, fields: seq<Field>, record: array<Value>, providers: Providers, parseFloat: FloatParser)
    returns (err: Option<LoadError>)
    requires WellTyped(fields, record[..])
    modifies record
    ensures CanLoad(arg).Some? ==> err == CanLoad(arg) && record[..] == old(record[..])
    ensures CanLoad(arg).None? ==>
      Outcome(record[..], err) == PopulateFrom(fields, old(record[..]), 0, FieldResolver(fields, providers), parseFloat)
  {
    err := CanLoad(arg);
    if err.Some? {
      return;
    }
    err := PopulateConfigStruct(fields, record, FieldResolver(fields, providers), parseFloat);
  }

  /**
   * The precedence of the sources, end to end. After a successful load, take
   * the first text present among the flag a field's `flag` tag names, the
   * environment variable its `env` tag names, the file entry its `file` tag
   * names, and its `default` tag, counting only the sources the field is
   * annotated for. A field of a handled kind that held its zero value holds
   * the conversion of that text; a field with no such text, a field that held
   * a non-zero value and a field of an unhandled kind are left as they were.
   */
  lemma {:induction false} LoadPrecedence(fields: seq<Field>, values: seq<Value>, providers: Providers, parseFloat: FloatParser, j: nat)
    requires WellTyped(fields, values) && DistinctNames(fields) && j < |fields|
    requires PopulateFrom(fields, values, 0, FieldResolver(fields, providers), parseFloat).err.None?
    ensures var after := PopulateFrom(fields, values, 0, FieldResolver(fields, providers), parseFloat).values[j];
      var text := FirstPresent(FieldCandidates(fields[j], providers));
      var zero := IsZeroOfUnderlyingType(values[j], fields[j].kind);
      (Handled(fields[j].kind) && zero && text.Some? ==> Coerce(fields[j].kind, text.value, parseFloat) == Parsed(after)) &&
      (text.None? || !zero || !Handled(fields[j].kind) ==> after == values[j])
  {
    var resolve := FieldResolver(fields, providers);
    assert resolve(fields[j].name) == FirstPresent(FieldCandidates(fields[j], providers)) by {
      FieldPrecedence(fields, providers, j);
    }
    PopulatedField(fields, values, resolve, parseFloat, j);
    if !Handled(fields[j].kind) {
      UnhandledUnchanged(fields, values, resolve, parseFloat, j);
    }
  }

  /** A load that fails on field k reports that field's conversion error and leaves field k and every later field as it was. */
  lemma LoadFailure(fields: seq<Field>, values: seq<Value>, providers: Providers, parseFloat: FloatParser)
    requires WellTyped(fields, values)
    requires PopulateFrom(fields, values, 0, FieldResolver(fields, providers), parseFloat).err.Some?
    ensures var o := PopulateFrom(fields, values, 0, FieldResolver(fields, providers), parseFloat);
      exists k :: 0 <= k < |fields| && o.err.value.ConversionError? && o.err.value.field == fields[k].name &&
        FieldResolver(fields, providers)(fields[k].name) == Some(o.err.value.value) &&
        Coerce(fields[k].kind, o.err.value.value, parseFloat).Failed? &&
        forall j :: k <= j < |fields| ==> o.values[j] == values[j]
  {
    WalkFailure(fields, values, FieldResolver(fields, providers), parseFloat);
  }
}
