# configurator, modelled in Dafny

`configurator` is a Go package. It fills a configuration struct from four
sources named in the struct's field tags:

- `flag:"…"` names a command-line flag;
- `env:"…"` names an environment variable;
- `file:"…"` names a key of the configuration file;
- `default:"…"` gives the default text.

A value the caller has already set in the struct overrides all of them. This
project models the package's core and proves its behaviour. The core is:

- the check of the argument passed to `Load`;
- the scan of field tags (`parseValuesForTag` and its four wrappers);
- the binding of the scanned annotations to the providers, in their
  precedence order;
- the walk that converts each resolved text by the field's kind and assigns
  it only to a field that still holds its zero value.

Modules:

- `Wrappers`: `Option`, `Result` and a total map lookup.
- `Strconv`: the parts of Go's `strconv` that the package calls, with their
  partners:
  - `ParseBool` accepts exactly twelve words; `FormatBool` is its partner.
  - `ParseInt` and `ParseUint` parse base 10 within the 64-bit range;
    `FormatInt` and `FormatUint` are their partners.
  - Round-trip lemmas connect each parser and formatter.
- `Reflect`: the 27 kinds of Go's `reflect`, and field values.
  - A field descriptor holds a name, its tag map and a kind.
  - The argument handed to `Load` is modelled by its shape: a direct value,
    or a pointer to one.
  - `Truncate` models the narrowing done by `SetInt` and `SetUint`.
- `Errors`: the two sentinel errors, and the conversion error that names the
  target type, the field and the text.
- `Scanner`: `parseValuesForTag` and the four per-tag wrappers.
- `Binder`: the binding of the scanned annotations to the providers, and
  the resolution of a field name. The providers are the environment, the
  flags set before `Load`, and the configuration document, all given as maps. Resolution
  takes the first present text among flag, environment, file and default.
- `Populator`: `isZeroOfUnderlyingType`, the conversion table, and two
  methods over the record, an `array<Value>` updated in place:
  - `populateStructField` as `PopulateStructField`;
  - `populateConfigStruct` as `PopulateConfigStruct`, a loop with
    invariants.

  `PopulateStructField` is proved against the specification function
  `StructFieldUpdate`, and `PopulateConfigStruct` against the specification
  function `PopulateFrom`. The properties of the walk are lemmas about
  `PopulateFrom`.
- `Loader`: `canLoad` and `Config.Load`, which refuses a bad argument
  first and otherwise populates the record. It also holds the end-to-end
  lemmas on precedence and on failure.
- `Scenarios`: the package's documented examples and test cases, stated as
  lemmas about concrete records:
  - the `AppConfig` example of the `Config` doc comment;
  - the `Port` records of the test file.

  The providers are parameters constrained by `requires`, so each lemma
  covers every provider set that agrees with the example.

Behaviour of the code a reader might not expect:

- A field whose kind has no case in `populateStructField` is left
  unchanged without error. This covers `int16`, `uint16`, structs, slices
  and maps. No "unsupported kind" error exists.
- A nil pointer passes the pointer check and then fails the struct check.
  It gets `ErrValueNotStruct`, not a separate nil error.
- The error names are those the code defines: `ErrValueNotStructPointer`
  and `ErrValueNotStruct`. The test file spells them `ErrNotStructPointer`
  and `ErrNotStruct`.

## Model

| member | source | states |
|---|---|---|
| Loader.CanLoad | configurator.go:148-159 | A non-pointer argument gets ErrValueNotStructPointer, and only it. A pointer to anything but a struct gets ErrValueNotStruct, and a nil pointer does too. A pointer to a struct is accepted, and only it. |
| Loader.Load | configurator.go:134-146 | A refused argument returns canLoad's error with the record untouched. Otherwise the record and the error are those of the populate walk over the bound providers. |
| Loader.LoadPrecedence | configurator.go:57-66 | After a successful load, take any field j, with any tags. Its candidates are its flag, environment variable and file key, each only if it is tagged for that source, and then its default tag. Let text be the first present candidate. If j is handled, held its zero value and text exists, j now holds the conversion of text. If there is no text, or j held a non-zero value, or its kind is unhandled, j keeps its value. |
| Loader.UnannotatedUnresolved | configurator.go:207-222 | In the model, the resolver answers nothing for a name that no exported field annotated for some source carries. |
| Populator.WalkFailure | configurator.go:277-283 | For any resolver, a failed walk stops at some field k. The error is a conversion error for k and carries the text resolved for k. That text fails to convert for k's kind. Field k and every later field keep their values. |
| Loader.LoadFailure | configurator.go:277-283 | A failed load reports a conversion error for some field k. The error carries the text resolved for k, and that text does fail to convert for k's kind. Field k and every later field keep their values. |
| Scanner.ParseValuesForTag | configurator.go:207-222 | The map's keys are exactly the exported fields with a non-empty value for the tag. Each entry holds that field's tag value and kind. |
| Scanner.ParsedEntry | configurator.go:207-222 | When field names are distinct, an annotated field's entry is its own tag value and kind. |
| Scanner.ParseDefaultValues | configurator.go:187-190 | Its keys are the fields annotated with `default`. |
| Scanner.ParseEnvValues | configurator.go:192-195 | Its keys are the fields annotated with `env`. |
| Scanner.ParseFlagValues | configurator.go:197-200 | Its keys are the fields annotated with `flag`. |
| Scanner.ParseConfigFileValues | configurator.go:202-205 | Its keys are the fields annotated with `file`. |
| Binder.PopulateDefaults | configurator.go:265-269 | Every annotated field gets its tag text as its default, and no other name gets a default. |
| Binder.BoundKeys | configurator.go:170-180 | After binding, only fields annotated for flag, env or file can have a text from that source. The fields with a default are exactly those annotated with one. |
| Binder.BindToProvider | configurator.go:228-259 | A field is bound if and only if the provider has the key its tag names. Its bound text is the provider's text for that key. |
| Binder.FirstPresent | configurator.go:9-15 | The result is absent if and only if every candidate is absent. Otherwise it is some candidate with every earlier candidate absent. |
| Binder.Resolve | configurator.go:277 | A text the resolver returns for a name is that name's text in one of the four bound sources. |
| Binder.ResolvePrecedence | configurator.go:9-15 | A flag beats the environment, the environment beats the file, and the file beats the default. A name resolves to nothing if and only if no source has it. |
| Binder.FieldPrecedence | configurator.go:57-66 | For distinct field names, any field resolves to the first present of four candidates. The candidates are the flag its `flag` tag names, the environment variable its `env` tag names and the file key its `file` tag names, each only if it carries that tag, and then its `default` tag if it has one. |
| Binder.BoundEntry | configurator.go:228-259 | An annotated field's bound text is the provider's text under the key the field's tag names. It is absent when the provider lacks that key. |
| Binder.ResolvedIsAnnotated | configurator.go:216-217 | Only an exported field annotated for some source ever resolves to a text. |
| Populator.IsZeroOfUnderlyingType | configurator.go:343-346 | A value is zero if and only if it is "" for strings, false for booleans, 0 for numbers and the zero element for other kinds. |
| Populator.Coerce | configurator.go:291-335 | A kind is left alone if and only if the switch has no case for it. A string is taken verbatim. A parsed value has the field's kind. A failure names the type the field's case converts to. |
| Populator.CoerceTable | configurator.go:291-335 | Each case defers to its parser. A bool, float, signed or unsigned field fails exactly when ParseBool, the float parser, ParseInt or ParseUint rejects the text. Otherwise it gets the parsed value, with integers narrowed to the field's width. |
| Populator.CoerceFormattedBool | configurator.go:297-305 | The text FormatBool writes for b converts back to b. |
| Populator.CoerceFormattedInt | configurator.go:317-325 | For a signed field, the text FormatInt writes for an integer the field can hold converts back to that integer. |
| Populator.CoerceFormattedUint | configurator.go:326-334 | For an unsigned field, the text FormatUint writes for a number the field can hold converts back to that number. |
| Populator.StructFieldUpdate | configurator.go:290-337 | A conversion failure is an error whatever the field holds. The error names the target, the field and the text. A field's value changes only when its kind is handled, it held its zero value and the new value is the conversion. Conversely, a text that converts is assigned whenever the field holds its zero value. |
| Populator.StructFieldUpdateIdempotent | configurator.go:290-337 | Applying the same text a second time changes nothing more. |
| Populator.PopulateStructField | configurator.go:290-337 | In place on the record array: on success only field i changes, to the update's value. On failure the error is returned and the record is untouched. |
| Populator.FieldStepSpec | configurator.go:276-284 | A field without a resolved text is left as it is. The step fails exactly when a text is resolved and fails to convert. A successful step leaves a value of the field's kind. |
| Populator.PopulateFrom | configurator.go:271-288 | The walk keeps every field's value of its declared kind. |
| Populator.FirstFailing | configurator.go:275-285 | The first field whose step fails, or the field count when none fails. Every step before it succeeds. |
| Populator.PopulateFromSpec | configurator.go:275-287 | The walk fails if and only if some step fails, with the first failing step's error. Fields before the failing one hold their step's value. The failing field and all later fields are unchanged. |
| Populator.UnhandledUnchanged | configurator.go:291-336 | A field of a kind without a case, int16 and uint16 included, is never changed. |
| Populator.PopulatedField | configurator.go:278-334 | After a successful walk, a handled non-zero field is unchanged, and so is a field with no resolved text. A handled zero field that resolves holds the conversion of its text. |
| Populator.PopulateIdempotent | configurator.go:271-288 | Walking again after a successful walk, over the same sources, changes nothing and succeeds. |
| Populator.PopulateConfigStruct | configurator.go:271-288 | In place on the record array, the outcome equals the specification walk. With k the first failing field: the error is present if and only if k exists, fields before k hold their step's value, and field k and later fields keep their values. |
| Strconv.ParseBool | configurator.go:298 | The text is rejected exactly when it is none of the twelve accepted words. A true result comes from a true word, a false result from a false word. |
| Strconv.ParseBoolAccepts | configurator.go:298 | ParseBool accepts exactly the twelve words of Go's strconv. Six of them mean true, the other six mean false. |
| Strconv.FormatBool | configurator.go:298 | ParseBool reads back what FormatBool writes. |
| Strconv.ParseUint | configurator.go:327 | A parsed unsigned value never exceeds 2^64-1. |
| Strconv.FormatUint | configurator.go:327 | It writes canonical decimal digits whose value is n. ParseUint reads them back for every n in range. |
| Strconv.FormatUintOfCanonical | configurator.go:327 | Writing the value of canonical digits gives the same digits. |
| Strconv.UintRoundTrip | configurator.go:327 | For canonical digits s, ParseUint(s) is n if and only if n is in range and FormatUint writes n as s. |
| Strconv.ParseUintRejectsSign | configurator.go:327 | ParseUint rejects any text that starts with a sign. |
| Strconv.ParseInt | configurator.go:318 | A parsed signed value lies within the 64-bit range. |
| Strconv.FormatInt | configurator.go:318 | ParseInt reads back every in-range integer FormatInt writes. |
| Strconv.FormatNegative | configurator.go:318 | A negative number is written as "-" followed by its magnitude's digits. |
| Strconv.IntRoundTrip | configurator.go:318 | Text ParseInt accepts, in canonical form, is exactly what FormatInt writes for the parsed value. Canonical means no '+', no leading zeros and no "-0". |
| Strconv.ParseIntRejectsNonDigit | configurator.go:318 | ParseInt rejects text whose magnitude contains a non-digit. |
| Reflect.Truncate | configurator.go:324 | SetInt and SetUint store a value that fits the field's width. A value that already fits is stored as is. |
| Reflect.Wrap | configurator.go:333 | Reduction into a window of width m: the result lies in the window, and a value already in it is kept. |
| Reflect.ZeroValue | configurator.go:345 | The zero value of a kind has that kind. |
| Reflect.ExportedInitial | configurator.go:216 | An empty name is not exported. A name with an upper-case ASCII initial is exported. One starting with a lower-case letter, a digit or an underscore is not. |
| Reflect.TagGet | configurator.go:213-214 | A key absent from the tag reads as the empty text. |
| Scenarios.LoadRefusals | configurator_test.go:20-33 | A struct passed by value gets ErrValueNotStructPointer. A pointer to a slice gets ErrValueNotStruct. |
| Scenarios.PortResolves | configurator_test.go:43 | With no flags and no file, Port resolves to APP_PORT when the environment has it, and to its default otherwise. |
| Scenarios.PortFromDefault | configurator_test.go:36-59 | With no flags, no file and no APP_PORT, a zero Port ends as 3306 without error. |
| Scenarios.PortFromEnvironment | configurator_test.go:129-157 | With no flags, no file and APP_PORT=4000, a zero Port ends as 4000 without error. |
| Scenarios.PortOverrideKept | configurator_test.go:61-88 | A Port already set to 1000 stays 1000 although its default resolves. |
| Scenarios.BadPortResolves | configurator_test.go:116-127 | With no flags, no file and no APP_PORT, TestPort resolves to its default text "badvalue". |
| Scenarios.BadIntDefault | configurator_test.go:116-127 | An int default "badvalue" fails the load with a conversion error naming the field and the text. |
| Scenarios.SecretResolves | configurator.go:73-98 | In the doc example, Secret resolves to the environment's "somesecretkey", ahead of the file's "defaultsecret" and the default. |
| Scenarios.UserResolves | configurator.go:74-99 | In the doc example, User resolves to the file's "test_user", ahead of its default. |
| Scenarios.EnvironmentResolves | configurator.go:75-100 | In the doc example, Environment has no flag, variable or file entry and resolves to its default "dev". |
| Scenarios.AppConfigExample | configurator.go:68-101 | Loading the doc example's zeroed record succeeds with Secret = somesecretkey, User = test_user and Environment = dev. |

## Left out

- Viper's own behaviour is out of the model. Only the documented precedence order is kept, and Loader.LoadPrecedence states that order.
  - Case-insensitive keys are not modelled. Viper lower-cases every key.
  - In Viper, a field without a `file` tag resolves from a file key equal to its lower-cased name, whatever its other tags. `viper.Get` is called for every field (configurator.go:277), and aliases are registered only for `file`-tagged fields (configurator.go:257). So the test's `Port int` with `env:"APP_PORT" default:"3306"` (configurator_test.go:43) would take a document key "port" ahead of its default in Go. The model gives "3306".
  - An unexported field that resolves this way makes Go panic at `fieldValue.Interface()`. Every case calls it before any setter (configurator.go:293, 303, 313, 323, 333). A bool, float, int or unsigned int field whose text fails to parse returns its conversion error before that point, so it does not panic (configurator.go:298-301, 308-311, 318-321, 327-330). The panic is not modelled.
  - `bindConfigFileValues` registers the field name as an alias of its file key (configurator.go:257). `viper.Get(name)` then reads under the file key.
  - `BindEnv` and `BindPFlag` bind under the field name (configurator.go:230, 241). So when a field's file tag differs from its lower-cased name, Viper does not consult its flag or its environment variable. An example is the doc comment's `Environment` field with `file:"env"` (configurator.go:75).
  - The model consults flag and environment for every field, as the documentation describes. The doc example's outcome is the same either way, because it sets no flag and no `APP_ENV`.
  - A bound flag that was never set falls back to its declared default (`""`) in Viper; not modelled.
  - Viper's handling of empty environment values is not modelled.
  - Providers are maps from the tag's key to a text.
- Finding and reading the configuration file is left out: `ReadInConfig`, `SetConfigName`, `AddConfigPath`, `FileName` and `FilePaths`. It is I/O.
- `fmt.Sprintf("%v", …)` rendering of the value Viper returns is left out. The resolver yields the text directly.
- Float parsing (`strconv.ParseFloat`) is a parameter of the model. Its rounding, and the narrowing to `float32`, are foreign numerics.
- Populator.IsZeroOfUnderlyingType: floats are modelled as reals, which have no -0.0 and no NaN. Go's `==` (configurator.go:345) counts -0.0 as zero and NaN as non-zero. So the model cannot show that a field set from `ParseFloat("NaN")` is kept by a later walk.
- The text of strconv's errors, and of `fmt.Errorf`, is not modelled. An error carries the target type, the field name and the text.
- `ast.IsExported` is modelled for ASCII names only. A non-ASCII upper-case initial counts as unexported.
- Go's `int` and `uint` are taken as 64 bits wide.
- Binder.ResolvedIsAnnotated: holds of the model, not of Viper. The model's providers answer only under the keys the tags name, so an untagged field never resolves in the model.
- Loader.UnannotatedUnresolved: holds of the model, not of Viper, for the same reason.
- Flags are declared on pflag's global set by `Load` itself (configurator.go:238), and `Load` never parses the command line. The model takes the flag values as a given map, which is what the test file does by calling the binding step directly and setting the flags (configurator_test.go:191-194). Through `Load`, no flag can be set:
  - declaring the same flag beforehand makes `Load`'s own declaration panic;
  - so `Load`'s flag tier is always empty in Go;
  - because a bound but unset flag falls back to its declared default `""`, a bool, int, unsigned int or float field tagged `flag`, with no default and no environment or file text, resolves to `""` in Go and makes `Load` fail with a conversion error. The model leaves such a field unchanged without error.
- Parts outside the model:
  - the package-level singleton, `init`, `SetFileName`, `SetFilePaths` and the free function `Load`;
  - the `pflag` flag-set plumbing, including the panic on a flag name registered twice;
  - the `configurator.Config` fields embedded in a user struct.
- Reflect.Wrap: does not state that the result is congruent to the input modulo the width. Only the range and the identity on values that already fit are stated.
- Reflect.Truncate: does not state the congruence either, for the same reason.
