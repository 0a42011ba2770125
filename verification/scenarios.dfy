/**
 * Concrete records, stated as lemmas about the model: the examples of the
 * package documentation and of its test suite.
 */
module Scenarios {
  import opened Wrappers
  import opened Strconv
  import opened Reflect
  import opened Scanner
  import opened Errors
  import opened Binder
  import opened Populator
  import opened Loader

  /** No environment variables, no flags, no configuration file. */
  const NoProviders := Providers(map[], map[], map[])

  /** The record of the example: one field `Port int` tagged `env:"APP_PORT" default:"3306"`. */
  const PortFields := [Field("Port", map["env" := "APP_PORT", "default" := "3306"], Int)]

  /** The Port field resolves to APP_PORT when the environment has it, and to its default otherwise. */
  lemma PortResolves(p: Providers)
    requires p.flags == map[] && p.document == map[]
    ensures FieldResolver(PortFields, p)("Port") ==
      if "APP_PORT" in p.environment then Some(p.environment["APP_PORT"]) else Some("3306")
  {
    var f := PortFields[0];
    assert TagGet(f, TagEnv) == "APP_PORT" && TagGet(f, TagDefault) == "3306";
    assert TagGet(f, TagFlag) == "" && TagGet(f, TagFile) == "";
    assert f.name == "Port";
    var c := FieldCandidates(f, p);
    assert c[0].None? && c[2].None? && c[1] == Lookup(p.environment, "APP_PORT") && c[3] == Some("3306");
    if "APP_PORT" in p.environment {
      ResolvesToCandidate(PortFields, p, 0, 1);
    } else {
      ResolvesToCandidate(PortFields, p, 0, 3);
    }
  }

  /** A one-field record whose zero field resolves to text that parses ends the walk holding the parsed value. */
  lemma SingleFieldParsed(f: Field, zero: Value, resolve: Resolver, parseFloat: FloatParser, text: string, v: Value)
    requires HasKind(zero, f.kind) && IsZeroOfUnderlyingType(zero, f.kind)
    requires resolve(f.name) == Some(text) && Coerce(f.kind, text, parseFloat) == Parsed(v)
    ensures PopulateFrom([f], [zero], 0, resolve, parseFloat) == Outcome([v], None)
  {
    assert FieldStep(f, zero, resolve, parseFloat) == Ok(v);
    assert [zero][0 := v] == [v];
  }

  /** The text "3306" coerces to the int 3306. */
  lemma Coerce3306(parseFloat: FloatParser)
    ensures Coerce(Int, "3306", parseFloat) == Parsed(IntVal(3306))
  {
    assert FormatUint(3) == "3" && FormatUint(33) == "33" && FormatUint(330) == "330";
    assert FormatInt(3306) == "3306";
    assert ParseInt("3306") == Some(3306);
  }

  /** The text "4000" coerces to the int 4000. */
  lemma Coerce4000(parseFloat: FloatParser)
    ensures Coerce(Int, "4000", parseFloat) == Parsed(IntVal(4000))
  {
    assert FormatUint(4) == "4" && FormatUint(40) == "40" && FormatUint(400) == "400";
    assert FormatInt(4000) == "4000";
    assert ParseInt("4000") == Some(4000);
  }

  /** With no APP_PORT in the environment and no flag or file, `Port` takes its default 3306. */
  lemma PortFromDefault(p: Providers, parseFloat: FloatParser)
    requires p.flags == map[] && p.document == map[] && "APP_PORT" !in p.environment
    ensures PopulateFrom(PortFields, [IntVal(0)], 0, FieldResolver(PortFields, p), parseFloat) ==
      Outcome([IntVal(3306)], None)
  {
    assert FieldResolver(PortFields, p)("Port") == Some("3306") by {
      PortResolves(p);
    }
    Coerce3306(parseFloat);
    SingleFieldParsed(PortFields[0], IntVal(0), FieldResolver(PortFields, p), parseFloat, "3306", IntVal(3306));
  }

  /** With APP_PORT=4000 in the environment, `Port` takes 4000 over its default. */
  lemma PortFromEnvironment(p: Providers, parseFloat: FloatParser)
    requires p.flags == map[] && p.document == map[] && "APP_PORT" in p.environment
    requires p.environment["APP_PORT"] == "4000"
    ensures PopulateFrom(PortFields, [IntVal(0)], 0, FieldResolver(PortFields, p), parseFloat) ==
      Outcome([IntVal(4000)], None)
  {
    assert FieldResolver(PortFields, p)("Port") == Some("4000") by {
      PortResolves(p);
    }
    Coerce4000(parseFloat);
    SingleFieldParsed(PortFields[0], IntVal(0), FieldResolver(PortFields, p), parseFloat, "4000", IntVal(4000));
  }

  /** A one-field record whose field is already non-zero keeps its value, whatever parseable text resolves for it. */
  lemma SingleFieldKept(f: Field, current: Value, resolve: Resolver, parseFloat: FloatParser, text: string, v: Value)
    requires HasKind(current, f.kind) && !IsZeroOfUnderlyingType(current, f.kind)
    requires resolve(f.name) == Some(text) && Coerce(f.kind, text, parseFloat) == Parsed(v)
    ensures PopulateFrom([f], [current], 0, resolve, parseFloat) == Outcome([current], None)
  {
    assert FieldStep(f, current, resolve, parseFloat) == Ok(current);
    assert [current][0 := current] == [current];
  }

  /** A one-field record whose resolved text does not parse stops the walk with that field's conversion error. */
  lemma SingleFieldFailed(f: Field, current: Value, resolve: Resolver, parseFloat: FloatParser, text: string, target: Target)
    requires HasKind(current, f.kind)
    requires resolve(f.name) == Some(text) && Coerce(f.kind, text, parseFloat) == Failed(target)
    ensures PopulateFrom([f], [current], 0, resolve, parseFloat) ==
      Outcome([current], Some(ConversionError(target, f.name, text)))
  {
    assert FieldStep(f, current, resolve, parseFloat) == Err(ConversionError(target, f.name, text));
  }

  /** A struct passed by value, and a pointer to a slice, are both refused before anything is read. */
  lemma LoadRefusals()
    ensures CanLoad(Direct(Struct)) == Some(ErrValueNotStructPointer)
    ensures CanLoad(Pointer(Some(Direct(Slice)))) == Some(ErrValueNotStruct)
    ensures CanLoad(Pointer(Some(Direct(Struct)))) == None
  {
  }

  /** A `Port` already set to 1000 keeps that value although its default 3306 resolves. */
  lemma PortOverrideKept(p: Providers, parseFloat: FloatParser)
    requires p.flags == map[] && p.document == map[] && "APP_PORT" !in p.environment
    ensures PopulateFrom(PortFields, [IntVal(1000)], 0, FieldResolver(PortFields, p), parseFloat) ==
      Outcome([IntVal(1000)], None)
  {
    assert FieldResolver(PortFields, p)("Port") == Some("3306") by {
      PortResolves(p);
    }
    Coerce3306(parseFloat);
    SingleFieldKept(PortFields[0], IntVal(1000), FieldResolver(PortFields, p), parseFloat, "3306", IntVal(3306));
  }

  /** The record of the failure example: one field `TestPort int` tagged `env:"APP_PORT" default:"badvalue"`. */
  const BadPortFields := [Field("TestPort", map["env" := "APP_PORT", "default" := "badvalue"], Int)]

  /** With no APP_PORT in the environment and no flag or file, TestPort resolves to its default text. */
  lemma BadPortResolves(p: Providers)
    requires p.flags == map[] && p.document == map[] && "APP_PORT" !in p.environment
    ensures FieldResolver(BadPortFields, p)("TestPort") == Some("badvalue")
  {
    var f := BadPortFields[0];
    assert TagGet(f, TagEnv) == "APP_PORT" && TagGet(f, TagDefault) == "badvalue";
    assert TagGet(f, TagFlag) == "" && TagGet(f, TagFile) == "";
    assert f.name == "TestPort";
    var c := FieldCandidates(f, p);
    assert c[0].None? && c[1].None? && c[2].None? && c[3] == Some("badvalue");
    ResolvesToCandidate(BadPortFields, p, 0, 3);
  }

  /** The text "badvalue" is not a base-10 integer. */
  lemma CoerceBadValue(parseFloat: FloatParser)
    ensures Coerce(Int, "badvalue", parseFloat) == Failed(ToInt)
  {
    ParseIntRejectsNonDigit("badvalue", 0);
  }

  /** A default that is not a base-10 integer makes the walk fail on that field, naming the field and the text. */
  lemma BadIntDefault(p: Providers, parseFloat: FloatParser)
    requires p.flags == map[] && p.document == map[] && "APP_PORT" !in p.environment
    ensures PopulateFrom(BadPortFields, [IntVal(0)], 0, FieldResolver(BadPortFields, p), parseFloat) ==
      Outcome([IntVal(0)], Some(ConversionError(ToInt, "TestPort", "badvalue")))
  {
    BadPortResolves(p);
    CoerceBadValue(parseFloat);
    SingleFieldFailed(BadPortFields[0], IntVal(0), FieldResolver(BadPortFields, p), parseFloat, "badvalue", ToInt);
  }

  /**
   * A record whose fields are all strings holding "" and all resolve: the walk
   * cannot fail, and every field ends holding its resolved text.
   */
  lemma {:induction false} StringFieldsPopulated(fields: seq<Field>, values: seq<Value>, resolve: Resolver, parseFloat: FloatParser)
    requires WellTyped(fields, values)
    requires forall j :: 0 <= j < |fields| ==> fields[j].kind.String? && values[j] == StrVal("") && resolve(fields[j].name).Some?
    ensures var o := PopulateFrom(fields, values, 0, resolve, parseFloat);
      o.err.None? && |o.values| == |fields| &&
      forall j :: 0 <= j < |fields| ==> o.values[j] == StrVal(resolve(fields[j].name).value)
  {
    PopulateFromSpec(fields, values, 0, resolve, parseFloat);
    var k := FirstFailing(fields, values, 0, resolve, parseFloat);
    assert k == |fields|;
    forall j | 0 <= j < |fields|
      ensures PopulateFrom(fields, values, 0, resolve, parseFloat).values[j] == StrVal(resolve(fields[j].name).value)
    {
      PopulatedField(fields, values, resolve, parseFloat, j);
    }
  }

  /** A field of kind string named `name` whose flag, env, file and default tags are the four texts given. */
  predicate StringFieldTagged(f: Field, name: string, flag: string, env: string, file: string, default: string)
  {
    f.name == name && f.kind.String? &&
    TagGet(f, TagFlag) == flag && TagGet(f, TagEnv) == env && TagGet(f, TagFile) == file && TagGet(f, TagDefault) == default
  }

  /**
   * The record of the package documentation's example:
   * `Secret` tagged file:"secret" env:"APP_SECRET" flag:"secret" default:"abc123xyz",
   * `User` tagged file:"user" env:"APP_USER" flag:"user" default:"root", and
   * `Environment` tagged file:"env" env:"APP_ENV" flag:"env" default:"dev".
   */
  predicate AppRecord(fields: seq<Field>)
  {
    |fields| == 3 &&
    StringFieldTagged(fields[0], "Secret", "secret", "APP_SECRET", "secret", "abc123xyz") &&
    StringFieldTagged(fields[1], "User", "user", "APP_USER", "user", "root") &&
    StringFieldTagged(fields[2], "Environment", "env", "APP_ENV", "env", "dev")
  }

  /** The providers of the example: APP_SECRET in the environment, `user` and `secret` in the file, no flags. */
  predicate AppProviders(p: Providers)
  {
    p.flags == map[] && p.environment == map["APP_SECRET" := "somesecretkey"] &&
    p.document == map["user" := "test_user", "secret" := "defaultsecret"]
  }

  /** The first present candidate is the one at `i` when every candidate before it is absent. */
  lemma FirstPresentAt(c: seq<Option<string>>, i: nat)
    requires i < |c| && c[i].Some? && forall j :: 0 <= j < i ==> c[j].None?
    ensures FirstPresent(c) == c[i]
  {
    var r := FirstPresent(c);
    var k :| 0 <= k < |c| && c[k] == r && forall j :: 0 <= j < k ==> c[j].None?;
    assert !(k < i) && !(i < k);
  }

  /** What the example's providers hold under the keys the record's tags name. */
  lemma AppProviderEntries(p: Providers)
    requires AppProviders(p)
    ensures "secret" !in p.flags && "user" !in p.flags && "env" !in p.flags
    ensures Lookup(p.environment, "APP_SECRET") == Some("somesecretkey")
    ensures Lookup(p.environment, "APP_USER") == None && Lookup(p.environment, "APP_ENV") == None
    ensures Lookup(p.document, "user") == Some("test_user") && Lookup(p.document, "env") == None
  {
    assert "APP_USER"[4] != "APP_SECRET"[4];
    assert "APP_ENV"[4] != "APP_SECRET"[4];
  }

  /** The example's three field names are distinct. */
  lemma AppDistinct(fields: seq<Field>)
    requires AppRecord(fields)
    ensures DistinctNames(fields)
  {
    assert "Secret"[0] != "User"[0] && "User"[0] != "Environment"[0] && "Secret"[0] != "Environment"[0];
  }

  /** A field resolves to the candidate at `k` when every candidate before it is absent. */
  lemma ResolvesToCandidate(fields: seq<Field>, p: Providers, i: nat, k: nat)
    requires DistinctNames(fields) && i < |fields|
    requires k < 4 && FieldCandidates(fields[i], p)[k].Some?
    requires forall j :: 0 <= j < k ==> FieldCandidates(fields[i], p)[j].None?
    ensures FieldResolver(fields, p)(fields[i].name) == FieldCandidates(fields[i], p)[k]
  {
    FieldPrecedence(fields, p, i);
    FirstPresentAt(FieldCandidates(fields[i], p), k);
  }

  /** Secret comes from the environment, over the file entry and the default. */
  lemma SecretResolves(fields: seq<Field>, p: Providers)
    requires AppRecord(fields) && AppProviders(p)
    ensures FieldResolver(fields, p)("Secret") == Some("somesecretkey")
  {
    AppProviderEntries(p);
    var c := FieldCandidates(fields[0], p);
    assert c[0].None? && c[1] == Some("somesecretkey");
    AppDistinct(fields);
    ResolvesToCandidate(fields, p, 0, 1);
  }

  /** User comes from the file, over the default. */
  lemma UserResolves(fields: seq<Field>, p: Providers)
    requires AppRecord(fields) && AppProviders(p)
    ensures FieldResolver(fields, p)("User") == Some("test_user")
  {
    AppProviderEntries(p);
    var c := FieldCandidates(fields[1], p);
    assert c[0].None? && c[1].None? && c[2] == Some("test_user");
    AppDistinct(fields);
    ResolvesToCandidate(fields, p, 1, 2);
  }

  /** Environment has no flag, no variable and no file entry, so it takes its default. */
  lemma EnvironmentResolves(fields: seq<Field>, p: Providers)
    requires AppRecord(fields) && AppProviders(p)
    ensures FieldResolver(fields, p)("Environment") == Some("dev")
  {
    AppProviderEntries(p);
    var c := FieldCandidates(fields[2], p);
    assert c[0].None? && c[1].None? && c[2].None? && c[3] == Some("dev");
    AppDistinct(fields);
    ResolvesToCandidate(fields, p, 2, 3);
  }

  /** Any resolver giving the example's three texts fills the zeroed record with them. */
  lemma AppRecordFilled(fields: seq<Field>, resolve: Resolver, parseFloat: FloatParser)
    requires AppRecord(fields)
    requires resolve("Secret") == Some("somesecretkey") && resolve("User") == Some("test_user") && resolve("Environment") == Some("dev")
    ensures WellTyped(fields, [StrVal(""), StrVal(""), StrVal("")])
    ensures PopulateFrom(fields, [StrVal(""), StrVal(""), StrVal("")], 0, resolve, parseFloat) ==
      Outcome([StrVal("somesecretkey"), StrVal("test_user"), StrVal("dev")], None)
  {
    var values := [StrVal(""), StrVal(""), StrVal("")];
    StringFieldsPopulated(fields, values, resolve, parseFloat);
    var o := PopulateFrom(fields, values, 0, resolve, parseFloat);
    assert o.values[0] == StrVal("somesecretkey") && o.values[1] == StrVal("test_user") && o.values[2] == StrVal("dev");
    assert o.values == [StrVal("somesecretkey"), StrVal("test_user"), StrVal("dev")];
  }

  /** The documentation's example: Secret from the environment, User from the file, Environment from its default. */
  lemma AppConfigExample(fields: seq<Field>, p: Providers, parseFloat: FloatParser)
    requires AppRecord(fields) && AppProviders(p)
    ensures WellTyped(fields, [StrVal(""), StrVal(""), StrVal("")])
    ensures PopulateFrom(fields, [StrVal(""), StrVal(""), StrVal("")], 0, FieldResolver(fields, p), parseFloat) ==
      Outcome([StrVal("somesecretkey"), StrVal("test_user"), StrVal("dev")], None)
  {
    SecretResolves(fields, p);
    UserResolves(fields, p);
    EnvironmentResolves(fields, p);
    AppRecordFilled(fields, FieldResolver(fields, p), parseFloat);
  }
}
