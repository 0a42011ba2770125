/**
 * The annotation scanner: for one tag name, the exported fields that carry a
 * non-empty value under that name, keyed by field name (`parseValuesForTag`
 * and its four wrappers).
 */
module Scanner {
  import opened Reflect

  const TagEnv := "env"
  const TagFlag := "flag"
  const TagFile := "file"
  const TagDefault := "default"

  /** `parsedValue`: a field's value under one tag name, with the field's type. */
  datatype ParsedValue = ParsedValue(tagValue: string, fieldType: Kind)

  /** The field takes part in the source `tagName` names. */
  predicate Annotated(f: Field, tagName: string)
  {
    TagGet(f, tagName) != "" && IsExported(f.name)
  }

  /** The names of the fields that take part in the source `tagName` names. */
  function AnnotatedNames(fields: seq<Field>, tagName: string): set<string>
  {
    set i | 0 <= i < |fields| && Annotated(fields[i], tagName) :: fields[i].name
  }

  /**
   * `parseValuesForTag`: walks the fields in order and records, under each
   * annotated field's name, its tag value and type. Its keys are exactly the
   * annotated names and every entry comes from an annotated field of that name.
   */
  function ParseValuesForTag(fields: seq<Field>, tagName: string): (values: map<string, ParsedValue>)
    ensures values.Keys == AnnotatedNames(fields, tagName)
    ensures forall name :: name in values ==> EntryFrom(fields, tagName, name, values[name])
  {
    if fields == [] then map[]
    else
      var init := fields[..|fields| - 1];
      var f := fields[|fields| - 1];
      var values := ParseValuesForTag(init, tagName);
      AnnotatedNamesSnoc(fields, tagName);
      EntriesSnoc(fields, tagName, values);
      if Annotated(f, tagName) then values[f.name := ParsedValue(TagGet(f, tagName), f.kind)] else values
  }

  /** The annotated names of a record are those of all but its last field, plus the last one's if it is annotated. */
  lemma AnnotatedNamesSnoc(fields: seq<Field>, tagName: string)
    requires fields != []
    ensures var f := fields[|fields| - 1];
      AnnotatedNames(fields, tagName) ==
        AnnotatedNames(fields[..|fields| - 1], tagName) + (if Annotated(f, tagName) then {f.name} else {})
  {
    var init := fields[..|fields| - 1];
    assert forall i :: 0 <= i < |init| ==> init[i] == fields[i];
  }

  /** An entry that comes from an annotated field of `fields` with the given name. */
  predicate EntryFrom(fields: seq<Field>, tagName: string, name: string, entry: ParsedValue)
  {
    exists i :: 0 <= i < |fields| && fields[i].name == name && Annotated(fields[i], tagName) &&
      entry == ParsedValue(TagGet(fields[i], tagName), fields[i].kind)
  }

  /** The step of ParseValuesForTag that records the last field keeps every entry traceable to its field. */
  lemma EntriesSnoc(fields: seq<Field>, tagName: string, values: map<string, ParsedValue>)
    requires fields != []
    requires forall name :: name in values ==> EntryFrom(fields[..|fields| - 1], tagName, name, values[name])
    ensures var f := fields[|fields| - 1];
      var values' := if Annotated(f, tagName) then values[f.name := ParsedValue(TagGet(f, tagName), f.kind)] else values;
      forall name :: name in values' ==> EntryFrom(fields, tagName, name, values'[name])
  {
    var init := fields[..|fields| - 1];
    forall name | name in values
      ensures EntryFrom(fields, tagName, name, values[name])
    {
      var i :| 0 <= i < |init| && init[i].name == name && Annotated(init[i], tagName) &&
        values[name] == ParsedValue(TagGet(init[i], tagName), init[i].kind);
      assert fields[i] == init[i];
    }
    var f := fields[|fields| - 1];
    assert Annotated(f, tagName) ==> EntryFrom(fields, tagName, f.name, ParsedValue(TagGet(f, tagName), f.kind));
  }

  /** With the distinct field names Go guarantees, each annotated field has its own entry. */
  lemma {:induction false} ParsedEntry(fields: seq<Field>, tagName: string, i: nat)
    requires DistinctNames(fields) && i < |fields| && Annotated(fields[i], tagName)
    ensures fields[i].name in ParseValuesForTag(fields, tagName)
    ensures ParseValuesForTag(fields, tagName)[fields[i].name] == ParsedValue(TagGet(fields[i], tagName), fields[i].kind)
  {
    var values := ParseValuesForTag(fields, tagName);
    var name := fields[i].name;
    assert name in AnnotatedNames(fields, tagName);
    var j :| 0 <= j < |fields| && fields[j].name == name && Annotated(fields[j], tagName) &&
      values[name] == ParsedValue(TagGet(fields[j], tagName), fields[j].kind);
    assert j == i;
  }

  /** `parseDefaultValues`: the fields with a `default` tag. */
  function ParseDefaultValues(fields: seq<Field>): (values: map<string, ParsedValue>)
    ensures values.Keys == AnnotatedNames(fields, TagDefault)
  {
    ParseValuesForTag(fields, TagDefault)
  }

  /** `parseEnvValues`: the fields with an `env` tag. */
  function ParseEnvValues(fields: seq<Field>): (values: map<string, ParsedValue>)
    ensures values.Keys == AnnotatedNames(fields, TagEnv)
  {
    ParseValuesForTag(fields, TagEnv)
  }

  /** `parseFlagValues`: the fields with a `flag` tag. */
  function ParseFlagValues(fields: seq<Field>): (values: map<string, ParsedValue>)
    ensures values.Keys == AnnotatedNames(fields, TagFlag)
  {
    ParseValuesForTag(fields, TagFlag)
  }

  /** `parseConfigFileValues`: the fields with a `file` tag. */
  function ParseConfigFileValues(fields: seq<Field>): (values: map<string, ParsedValue>)
    ensures values.Keys == AnnotatedNames(fields, TagFile)
  {
    ParseValuesForTag(fields, TagFile)
  }
}
