/**
 * The source binder and the precedence resolver. The providers themselves
 * (environment, command-line flags, configuration file) are given as the
 * texts they hold; binding connects each annotated field to the entry its
 * tag names, and resolution picks, per field, the first source that has a
 * value in the order flag, environment, file, default.
 */
module Binder {
  import opened Wrappers
  import opened Reflect
  import opened Scanner

  /**
   * What the external providers hold: environment variables by name, the
   * flags given on the command line by flag name, and the configuration
   * file's entries by document key, each already rendered as text.
   */
  datatype Providers = Providers(
    environment: map<string, string>,
    flags: map<string, string>,
    document: map<string, string>)

  /** The value each source offers for each field, keyed by field name. */
  datatype Sources = Sources(
    flag: map<string, string>,
    env: map<string, string>,
    file: map<string, string>,
    defaults: map<string, string>)

  /**
   * `populateDefaults`: every field with a `default` tag falls back to its tag
   * value.
   */
  function PopulateDefaults(annotations: map<string, ParsedValue>): (defaults: map<string, string>)
    ensures defaults.Keys == annotations.Keys
    ensures forall name :: name in defaults ==> defaults[name] == annotations[name].tagValue
  {
    map name | name in annotations :: annotations[name].tagValue
  }

  /**
   * `bindEnvValues`, `bindFlagValues` and `bindConfigFileValues`: a field
   * annotated with entry name `t` takes the provider's entry `t`, when the
   * provider has one; no other field gets a value from the provider.
   */
  function BindToProvider(annotations: map<string, ParsedValue>, provider: map<string, string>): (bound: map<string, string>)
    ensures forall name :: name in bound <==> name in annotations && annotations[name].tagValue in provider
    ensures forall name :: name in bound ==> bound[name] == provider[annotations[name].tagValue]
  {
    map name | name in annotations && annotations[name].tagValue in provider :: provider[annotations[name].tagValue]
  }

  /** Scans the record for the four tag names and binds each to its provider. */
  function Bind(fields: seq<Field>, p: Providers): (src: Sources)
  {
    Sources(
      flag := BindToProvider(ParseFlagValues(fields), p.flags),
      env := BindToProvider(ParseEnvValues(fields), p.environment),
      file := BindToProvider(ParseConfigFileValues(fields), p.document),
      defaults := PopulateDefaults(ParseDefaultValues(fields)))
  }

  /**
   * The sources keep only annotated fields: a field gets a flag, environment or
   * file text only if it is annotated for that source, and it gets a default
   * exactly when it is annotated with one.
   */
  lemma BoundKeys(fields: seq<Field>, p: Providers)
    ensures Bind(fields, p).flag.Keys <= AnnotatedNames(fields, TagFlag)
    ensures Bind(fields, p).env.Keys <= AnnotatedNames(fields, TagEnv)
    ensures Bind(fields, p).file.Keys <= AnnotatedNames(fields, TagFile)
    ensures Bind(fields, p).defaults.Keys == AnnotatedNames(fields, TagDefault)
  {
  }

  /** The first candidate that is present, or none when all are absent. */
  function FirstPresent(candidates: seq<Option<string>>): (r: Option<string>)
    ensures r.None? <==> forall i :: 0 <= i < |candidates| ==> candidates[i].None?
    ensures r.Some? ==> exists i :: (0 <= i < |candidates| && candidates[i] == r &&
      forall j :: 0 <= j < i ==> candidates[j].None?)
  {
    if candidates == [] then None
    else if candidates[0].Some? then candidates[0]
    else
      var r := FirstPresent(candidates[1..]);
      assert forall i :: 1 <= i < |candidates| ==> candidates[i] == candidates[1..][i - 1];
      r
  }

  /**
   * The resolver the populator queries by field name (`viper.Get`): the flag
   * value, else the environment value, else the file value, else the default.
   */
  function Resolve(src: Sources, name: string): (r: Option<string>)
    ensures r.Some? ==>
      (name in src.flag && r.value == src.flag[name]) || (name in src.env && r.value == src.env[name]) ||
      (name in src.file && r.value == src.file[name]) || (name in src.defaults && r.value == src.defaults[name])
  {
    FirstPresent([Lookup(src.flag, name), Lookup(src.env, name), Lookup(src.file, name), Lookup(src.defaults, name)])
  }

  /** The precedence order of the sources, one source at a time. */
  lemma ResolvePrecedence(src: Sources, name: string)
    ensures name in src.flag ==> Resolve(src, name) == Some(src.flag[name])
    ensures name !in src.flag && name in src.env ==> Resolve(src, name) == Some(src.env[name])
    ensures name !in src.flag && name !in src.env && name in src.file ==>
      Resolve(src, name) == Some(src.file[name])
    ensures name !in src.flag && name !in src.env && name !in src.file && name in src.defaults ==>
      Resolve(src, name) == Some(src.defaults[name])
    ensures Resolve(src, name).None? <==>
      name !in src.flag && name !in src.env && name !in src.file && name !in src.defaults
  {
    var c := [Lookup(src.flag, name), Lookup(src.env, name), Lookup(src.file, name), Lookup(src.defaults, name)];
    assert c[0].Some? <==> name in src.flag;
    assert c[1].Some? <==> name in src.env;
    assert c[2].Some? <==> name in src.file;
    assert c[3].Some? <==> name in src.defaults;
  }

  /** The field takes part in at least one of the four sources. */
  predicate AnnotatedForAny(f: Field)
  {
    Annotated(f, TagFlag) || Annotated(f, TagEnv) || Annotated(f, TagFile) || Annotated(f, TagDefault)
  }

  /** Only a field that is exported and annotated for some source ever resolves to a value. */
  lemma ResolvedIsAnnotated(fields: seq<Field>, p: Providers, name: string)
    requires Resolve(Bind(fields, p), name).Some?
    ensures IsExported(name)
    ensures exists i :: 0 <= i < |fields| && fields[i].name == name && AnnotatedForAny(fields[i])
  {
    var src := Bind(fields, p);
    assert name in src.flag || name in src.env || name in src.file || name in src.defaults by {
      ResolvePrecedence(src, name);
    }
    if name in src.flag {
      assert name in AnnotatedNames(fields, TagFlag);
    } else if name in src.env {
      assert name in AnnotatedNames(fields, TagEnv);
    } else if name in src.file {
      assert name in AnnotatedNames(fields, TagFile);
    } else {
      assert name in AnnotatedNames(fields, TagDefault);
    }
  }

  /** The provider entry a field is bound to, when the field is annotated for that provider. */
  lemma {:induction false} BoundEntry(fields: seq<Field>, tagName: string, provider: map<string, string>, i: nat)
    requires DistinctNames(fields) && i < |fields| && Annotated(fields[i], tagName)
    ensures Lookup(BindToProvider(ParseValuesForTag(fields, tagName), provider), fields[i].name) ==
      Lookup(provider, TagGet(fields[i], tagName))
  {
    ParsedEntry(fields, tagName, i);
  }

  /** With distinct field names, a field not annotated for a source has no entry in that source's scan. */
  lemma NotAnnotatedAbsent(fields: seq<Field>, tagName: string, i: nat)
    requires DistinctNames(fields) && i < |fields| && !Annotated(fields[i], tagName)
    ensures fields[i].name !in AnnotatedNames(fields, tagName)
  {
  }

  /**
   * What each source offers one field, in precedence order: the flag its
   * `flag` tag names, the environment variable its `env` tag names, the file
   * entry its `file` tag names, and its `default` tag, each only when the
   * field is annotated for that source.
   */
  function FieldCandidates(f: Field, p: Providers): seq<Option<string>>
  {
    [ if Annotated(f, TagFlag) then Lookup(p.flags, TagGet(f, TagFlag)) else None,
      if Annotated(f, TagEnv) then Lookup(p.environment, TagGet(f, TagEnv)) else None,
      if Annotated(f, TagFile) then Lookup(p.document, TagGet(f, TagFile)) else None,
      if Annotated(f, TagDefault) then Some(TagGet(f, TagDefault)) else None ]
  }

  /** The text source `tagName` offers field i through the binder. */
  lemma {:induction false} BoundOrAbsent(fields: seq<Field>, tagName: string, provider: map<string, string>, i: nat)
    requires DistinctNames(fields) && i < |fields|
    ensures Lookup(BindToProvider(ParseValuesForTag(fields, tagName), provider), fields[i].name) ==
      if Annotated(fields[i], tagName) then Lookup(provider, TagGet(fields[i], tagName)) else None
  {
    if Annotated(fields[i], tagName) {
      BoundEntry(fields, tagName, provider, i);
    } else {
      NotAnnotatedAbsent(fields, tagName, i);
    }
  }

  /**
   * End to end through the binder: whatever tags a field carries, its resolved
   * text is the first text present among the flag named by its `flag` tag, the
   * environment variable named by its `env` tag, the file entry named by its
   * `file` tag and its `default` tag, skipping every source it is not
   * annotated for.
   */
  lemma {:induction false} FieldPrecedence(fields: seq<Field>, p: Providers, i: nat)
    requires DistinctNames(fields) && i < |fields|
    ensures Resolve(Bind(fields, p), fields[i].name) == FirstPresent(FieldCandidates(fields[i], p))
  {
    var f := fields[i];
    var src := Bind(fields, p);
    var c := FieldCandidates(f, p);
    BoundOrAbsent(fields, TagFlag, p.flags, i);
    BoundOrAbsent(fields, TagEnv, p.environment, i);
    BoundOrAbsent(fields, TagFile, p.document, i);
    assert Lookup(src.defaults, f.name) == c[3] by {
      if Annotated(f, TagDefault) {
        ParsedEntry(fields, TagDefault, i);
      } else {
        NotAnnotatedAbsent(fields, TagDefault, i);
      }
    }
    assert [Lookup(src.flag, f.name), Lookup(src.env, f.name), Lookup(src.file, f.name), Lookup(src.defaults, f.name)] == c;
  }
}
