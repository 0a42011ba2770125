/**
 * The populator: walks the record's fields in declaration order, asks the
 * resolver for each field's text, converts it according to the field's kind
 * and assigns it only to a field still holding its zero value. The first
 * conversion error stops the walk.
 *
 * `PopulateFrom` is the specification of the walk; the methods
 * `PopulateStructField` and `PopulateConfigStruct` update the record in place
 * and are proved against it.
 */
module Populator {
  import opened Wrappers
  import opened Strconv
  import opened Reflect
  import opened Errors

  /** `strconv.ParseFloat(s, 64)`, supplied by the caller: floating-point parsing is outside the model. */
  type FloatParser = string -> Option<real>

  /** `viper.Get` rendered as text: the resolved text for a field name, or none. */
  type Resolver = string -> Option<string>

  /** `isZeroOfUnderlyingType`: the value equals the zero value of its type. */
  function IsZeroOfUnderlyingType(v: Value, k: Kind): (zero: bool)
    requires HasKind(v, k)
    ensures zero <==> match v
      case StrVal(s) => s == ""
      case BoolVal(b) => !b
      case IntVal(i) => i == 0
      case UintVal(u) => u == 0
      case FloatVal(x) => x == 0.0
      case Other(id) => id == 0
  {
    v == ZeroValue(k)
  }

  /** The kinds `populateStructField` has a case for; Int16 and Uint16 are not among them. */
  predicate Handled(k: Kind)
  {
    k.String? || k.Bool? || IsFloatKind(k) ||
    k.Int? || k.Int8? || k.Int32? || k.Int64? ||
    k.Uint? || k.Uint8? || k.Uint32? || k.Uint64?
  }

  /** The type a conversion error names for a field of a handled kind other than string. */
  function TargetOf(k: Kind): Target
  {
    if k.Bool? then ToBool
    else if IsFloatKind(k) then ToFloat
    else if IsSignedKind(k) then ToInt
    else ToUnsignedInt
  }

  /** The result of converting a resolved text for a field of some kind. */
  datatype Coercion = Parsed(value: Value) | Failed(target: Target) | Unhandled

  /**
   * The conversion table of `populateStructField`: strings are taken as they
   * are, booleans and integers go through `strconv`, floats through the
   * supplied parser, and every other kind is left alone.
   */
  function Coerce(k: Kind, text: string, parseFloat: FloatParser): (c: Coercion)
    ensures c.Unhandled? <==> !Handled(k)
    ensures c.Parsed? ==> HasKind(c.value, k)
    ensures k.String? ==> c == Parsed(StrVal(text))
    ensures c.Failed? ==> c.target == TargetOf(k)
  {
    if k.String? then Parsed(StrVal(text))
    else if k.Bool? then
      (match ParseBool(text)
       case Some(b) => Parsed(BoolVal(b))
       case None => Failed(ToBool))
    else if IsFloatKind(k) then
      (match parseFloat(text)
       case Some(x) => Parsed(FloatVal(x))
       case None => Failed(ToFloat))
    else if k.Int? || k.Int8? || k.Int32? || k.Int64? then
      (match ParseInt(text)
       case Some(n) => Parsed(IntVal(Truncate(k, n)))
       case None => Failed(ToInt))
    else if k.Uint? || k.Uint8? || k.Uint32? || k.Uint64? then
      (match ParseUint(text)
       case Some(n) => Parsed(UintVal(Truncate(k, n)))
       case None => Failed(ToUnsignedInt))
    else Unhandled
  }

  /**
   * Each case of the table defers to its parser: a text fails for a field
   * exactly when the parser of the field's kind rejects it, and otherwise the
   * field gets the parsed value, integers narrowed to the field's width.
   */
  lemma CoerceTable(k: Kind, text: string, parseFloat: FloatParser)
    ensures k.Bool? ==> (Coerce(k, text, parseFloat).Failed? <==> ParseBool(text).None?)
    ensures IsFloatKind(k) ==> (Coerce(k, text, parseFloat).Failed? <==> parseFloat(text).None?)
    ensures Handled(k) && IsSignedKind(k) ==> (Coerce(k, text, parseFloat).Failed? <==> ParseInt(text).None?)
    ensures Handled(k) && IsUnsignedKind(k) ==> (Coerce(k, text, parseFloat).Failed? <==> ParseUint(text).None?)
    ensures Coerce(k, text, parseFloat).Parsed? ==>
      Coerce(k, text, parseFloat).value ==
        (if k.Bool? then BoolVal(ParseBool(text).value)
         else if IsFloatKind(k) then FloatVal(parseFloat(text).value)
         else if IsSignedKind(k) then IntVal(Truncate(k, ParseInt(text).value))
         else if IsUnsignedKind(k) then UintVal(Truncate(k, ParseUint(text).value))
         else StrVal(text))
  {
  }

  /**
   * The conversion table read backwards: the text strconv writes for a value a
   * field of kind `k` can hold converts back to that very value.
   */
  lemma CoerceFormattedBool(b: bool, parseFloat: FloatParser)
    ensures Coerce(Bool, FormatBool(b), parseFloat) == Parsed(BoolVal(b))
  {
    CoerceTable(Bool, FormatBool(b), parseFloat);
  }

  /** The decimal text of an in-range integer assigns that integer to a signed field. */
  lemma CoerceFormattedInt(k: Kind, n: int, parseFloat: FloatParser)
    requires Handled(k) && IsSignedKind(k) && InRange(k, n)
    ensures Coerce(k, FormatInt(n), parseFloat) == Parsed(IntVal(n))
  {
    assert MinInt64 <= n <= MaxInt64;
    CoerceTable(k, FormatInt(n), parseFloat);
  }

  /** The decimal text of an in-range natural number assigns that number to an unsigned field. */
  lemma CoerceFormattedUint(k: Kind, n: nat, parseFloat: FloatParser)
    requires Handled(k) && IsUnsignedKind(k) && InRange(k, n)
    ensures Coerce(k, FormatUint(n), parseFloat) == Parsed(UintVal(n))
  {
    assert n <= MaxUint64;
    CoerceTable(k, FormatUint(n), parseFloat);
  }

  /**
   * What `populateStructField` does to one field holding `current` when the
   * resolved text is `text`: the text is converted first, so a text the kind
   * cannot parse is an error whatever the field holds; a converted value is
   * assigned only over the zero value.
   */
  function StructFieldUpdate(f: Field, current: Value, text: string, parseFloat: FloatParser): (r: Result<Value, LoadError>)
    requires HasKind(current, f.kind)
    ensures r.Ok? ==> HasKind(r.value, f.kind)
    ensures r.Err? <==> Coerce(f.kind, text, parseFloat).Failed?
    ensures r.Err? ==> r.error == ConversionError(Coerce(f.kind, text, parseFloat).target, f.name, text)
    ensures r.Ok? && r.value != current ==>
      Handled(f.kind) && IsZeroOfUnderlyingType(current, f.kind) && r.value == Coerce(f.kind, text, parseFloat).value
    ensures Coerce(f.kind, text, parseFloat).Parsed? && IsZeroOfUnderlyingType(current, f.kind) ==>
      r == Ok(Coerce(f.kind, text, parseFloat).value)
  {
    match Coerce(f.kind, text, parseFloat)
    case Failed(target) => Err(ConversionError(target, f.name, text))
    case Unhandled => Ok(current)
    case Parsed(v) => Ok(if IsZeroOfUnderlyingType(current, f.kind) then v else current)
  }

  /** Applying the same text twice changes nothing more than applying it once. */
  lemma StructFieldUpdateIdempotent(f: Field, current: Value, text: string, parseFloat: FloatParser)
    requires HasKind(current, f.kind) && StructFieldUpdate(f, current, text, parseFloat).Ok?
    ensures var v := StructFieldUpdate(f, current, text, parseFloat).value;
      StructFieldUpdate(f, v, text, parseFloat) == Ok(v)
  {
    var v := StructFieldUpdate(f, current, text, parseFloat).value;
    if v != current {
      assert IsZeroOfUnderlyingType(current, f.kind);
    }
  }

  /** One iteration of `populateConfigStruct`: resolve the field's text, then update it if there is one. */
  function FieldStep(f: Field, current: Value, resolve: Resolver, parseFloat: FloatParser): (r: Result<Value, LoadError>)
    requires HasKind(current, f.kind)
  {
    match resolve(f.name)
    case None => Ok(current)
    case Some(text) => StructFieldUpdate(f, current, text, parseFloat)
  }

  /**
   * What one step does: a field without a text is left as it is; the step
   * fails exactly when there is a text and its conversion fails; a step that
   * succeeds leaves a value of the field's kind.
   */
  lemma FieldStepSpec(f: Field, current: Value, resolve: Resolver, parseFloat: FloatParser)
    requires HasKind(current, f.kind)
    ensures resolve(f.name).None? ==> FieldStep(f, current, resolve, parseFloat) == Ok(current)
    ensures FieldStep(f, current, resolve, parseFloat).Err? <==>
      resolve(f.name).Some? && Coerce(f.kind, resolve(f.name).value, parseFloat).Failed?
    ensures FieldStep(f, current, resolve, parseFloat).Ok? ==> HasKind(FieldStep(f, current, resolve, parseFloat).value, f.kind)
  {
  }

  /** The record's values after the walk, and the error that stopped it, if any. */
  datatype Outcome = Outcome(values: seq<Value>, err: Option<LoadError>)

  /**
   * `populateConfigStruct` from field `i` on, as a specification: each field in
   * turn takes its step; the first error ends the walk with the record as it
   * stands. Every field keeps a value of its kind.
   */
  function PopulateFrom(fields: seq<Field>, values: seq<Value>, i: nat, resolve: Resolver, parseFloat: FloatParser): (o: Outcome)
    requires WellTyped(fields, values) && i <= |fields|
    ensures WellTyped(fields, o.values)
    decreases |fields| - i
  {
    if i == |fields| then Outcome(values, None)
    else
      match FieldStep(fields[i], values[i], resolve, parseFloat)
      case Err(e) => Outcome(values, Some(e))
      case Ok(v) => PopulateFrom(fields, values[i := v], i + 1, resolve, parseFloat)
  }

  /**
   * The index of the first field, from `i` on, whose step fails, or the number
   * of fields when none does: an independent account of where the walk stops.
   */
  function FirstFailing(fields: seq<Field>, values: seq<Value>, i: nat, resolve: Resolver, parseFloat: FloatParser): (k: nat)
    requires WellTyped(fields, values) && i <= |fields|
    ensures i <= k <= |fields|
    ensures forall j :: i <= j < k ==> FieldStep(fields[j], values[j], resolve, parseFloat).Ok?
    ensures k < |fields| ==> FieldStep(fields[k], values[k], resolve, parseFloat).Err?
    decreases |fields| - i
  {
    if i == |fields| || FieldStep(fields[i], values[i], resolve, parseFloat).Err? then i
    else FirstFailing(fields, values, i + 1, resolve, parseFloat)
  }

  /** FirstFailing from `i` looks only at the fields from `i` on. */
  lemma {:induction false} FirstFailingFrame(fields: seq<Field>, values: seq<Value>, values': seq<Value>, i: nat, resolve: Resolver, parseFloat: FloatParser)
    requires WellTyped(fields, values) && WellTyped(fields, values') && i <= |fields|
    requires forall j :: i <= j < |fields| ==> values[j] == values'[j]
    ensures FirstFailing(fields, values, i, resolve, parseFloat) == FirstFailing(fields, values', i, resolve, parseFloat)
    decreases |fields| - i
  {
    if i < |fields| {
      FirstFailingFrame(fields, values, values', i + 1, resolve, parseFloat);
    }
  }

  /**
   * The walk, field by field: with k the first failing field from `i` on, the
   * fields from `i` up to k hold their step's value, every other field keeps
   * its value, and the error is the one field k reported (none when k is past
   * the last field).
   */
  lemma {:induction false} PopulateFromSpec(fields: seq<Field>, values: seq<Value>, i: nat, resolve: Resolver, parseFloat: FloatParser)
    requires WellTyped(fields, values) && i <= |fields|
    ensures var o := PopulateFrom(fields, values, i, resolve, parseFloat);
      var k := FirstFailing(fields, values, i, resolve, parseFloat);
      (o.err.None? <==> k == |fields|) &&
      (k < |fields| ==> o.err == Some(FieldStep(fields[k], values[k], resolve, parseFloat).error)) &&
      (forall j :: 0 <= j < |fields| ==>
        o.values[j] == if i <= j < k then FieldStep(fields[j], values[j], resolve, parseFloat).value else values[j])
    decreases |fields| - i
  {
    if i < |fields| {
      match FieldStep(fields[i], values[i], resolve, parseFloat)
      case Err(e) =>
      case Ok(v) =>
        var values' := values[i := v];
        PopulateFromSpec(fields, values', i + 1, resolve, parseFloat);
        FirstFailingFrame(fields, values, values', i + 1, resolve, parseFloat);
        var o := PopulateFrom(fields, values', i + 1, resolve, parseFloat);
        var k := FirstFailing(fields, values', i + 1, resolve, parseFloat);
        assert PopulateFrom(fields, values, i, resolve, parseFloat) == o;
        assert FirstFailing(fields, values, i, resolve, parseFloat) == k;
        forall j | 0 <= j < |fields|
          ensures o.values[j] == if i <= j < k then FieldStep(fields[j], values[j], resolve, parseFloat).value else values[j]
        {
          if j != i {
            assert values'[j] == values[j];
          }
        }
    }
  }

  /**
   * A walk that fails stops at some field k: the error is k's conversion
   * error, it carries the text resolved for k, that text does fail to convert
   * for k's kind, and field k and every later field keep their values.
   */
  lemma WalkFailure(fields: seq<Field>, values: seq<Value>, resolve: Resolver, parseFloat: FloatParser)
    requires WellTyped(fields, values)
    requires PopulateFrom(fields, values, 0, resolve, parseFloat).err.Some?
    ensures var o := PopulateFrom(fields, values, 0, resolve, parseFloat);
      exists k :: 0 <= k < |fields| && o.err.value.ConversionError? && o.err.value.field == fields[k].name &&
        resolve(fields[k].name) == Some(o.err.value.value) &&
        Coerce(fields[k].kind, o.err.value.value, parseFloat).Failed? &&
        forall j :: k <= j < |fields| ==> o.values[j] == values[j]
  {
    var o := PopulateFrom(fields, values, 0, resolve, parseFloat);
    PopulateFromSpec(fields, values, 0, resolve, parseFloat);
    var k := FirstFailing(fields, values, 0, resolve, parseFloat);
    assert k < |fields|;
    FieldStepSpec(fields[k], values[k], resolve, parseFloat);
    var text := resolve(fields[k].name).value;
    var e := StructFieldUpdate(fields[k], values[k], text, parseFloat).error;
    assert o.err == Some(e);
    assert e == ConversionError(Coerce(fields[k].kind, text, parseFloat).target, fields[k].name, text);
    assert forall j :: k <= j < |fields| ==> o.values[j] == values[j];
  }

  /** Only an assignment changes a field: a field whose kind has no case is never changed. */
  lemma UnhandledUnchanged(fields: seq<Field>, values: seq<Value>, resolve: Resolver, parseFloat: FloatParser, j: nat)
    requires WellTyped(fields, values) && j < |fields| && !Handled(fields[j].kind)
    ensures PopulateFrom(fields, values, 0, resolve, parseFloat).values[j] == values[j]
  {
    PopulateFromSpec(fields, values, 0, resolve, parseFloat);
  }

  /**
   * Override. After a walk that ends without error, a field that held a
   * non-zero value still holds it, a field without a resolved text is
   * unchanged, and a field that held its zero value and resolves to a text
   * holds that text's conversion.
   */
  lemma PopulatedField(fields: seq<Field>, values: seq<Value>, resolve: Resolver, parseFloat: FloatParser, j: nat)
    requires WellTyped(fields, values) && j < |fields|
    requires PopulateFrom(fields, values, 0, resolve, parseFloat).err.None?
    ensures var after := PopulateFrom(fields, values, 0, resolve, parseFloat).values[j];
      var f := fields[j];
      (Handled(f.kind) && !IsZeroOfUnderlyingType(values[j], f.kind) ==> after == values[j]) &&
      (resolve(f.name).None? ==> after == values[j]) &&
      (Handled(f.kind) && IsZeroOfUnderlyingType(values[j], f.kind) && resolve(f.name).Some? ==>
        Coerce(f.kind, resolve(f.name).value, parseFloat) == Parsed(after))
  {
    PopulateFromSpec(fields, values, 0, resolve, parseFloat);
  }

  /** A walk that ends without error leaves a record that a second walk over the same sources does not change. */
  lemma PopulateIdempotent(fields: seq<Field>, values: seq<Value>, resolve: Resolver, parseFloat: FloatParser)
    requires WellTyped(fields, values)
    requires PopulateFrom(fields, values, 0, resolve, parseFloat).err.None?
    ensures var after := PopulateFrom(fields, values, 0, resolve, parseFloat).values;
      PopulateFrom(fields, after, 0, resolve, parseFloat) == Outcome(after, None)
  {
    var after := PopulateFrom(fields, values, 0, resolve, parseFloat).values;
    PopulateFromSpec(fields, values, 0, resolve, parseFloat);
    forall j | 0 <= j < |fields|
      ensures FieldStep(fields[j], after[j], resolve, parseFloat) == Ok(after[j])
    {
      if resolve(fields[j].name).Some? {
        StructFieldUpdateIdempotent(fields[j], values[j], resolve(fields[j].name).value, parseFloat);
      }
    }
    PopulateFromSpec(fields, after, 0, resolve, parseFloat);
    var again := PopulateFrom(fields, after, 0, resolve, parseFloat);
    assert again.values == after;
  }

  /**
   * `populateStructField` on field `i` of the record: converts `text` by the
   * field's kind, returns the error if that fails, and otherwise assigns the
   * converted value when the field holds its zero value.
   */
  method PopulateStructField(f: Field, record: array<Value>, i: nat, text: string, parseFloat: FloatParser)
    returns (err: Option<LoadError>)
    requires i < record.Length && HasKind(record[i], f.kind)
    modifies record
    ensures match StructFieldUpdate(f, old(record[i]), text, parseFloat)
      case Ok(v) => err.None? && record[..] == old(record[..])[i := v]
      case Err(e) => err == Some(e) && record[..] == old(record[..])
  {
    var current := record[i];
    match f.kind {
    case String =>
      if IsZeroOfUnderlyingType(current, f.kind) {
        record[i] := StrVal(text);
      }
    case Bool =>
      var b := ParseBool(text);
      if b.None? {
        return Some(ConversionError(ToBool, f.name, text));
      }
      if IsZeroOfUnderlyingType(current, f.kind) {
        record[i] := BoolVal(b.value);
      }
    case Float32 | Float64 =>
      var x := parseFloat(text);
      if x.None? {
        return Some(ConversionError(ToFloat, f.name, text));
      }
      if IsZeroOfUnderlyingType(current, f.kind) {
        record[i] := FloatVal(x.value);
      }
    case Int | Int8 | Int32 | Int64 =>
      var n := ParseInt(text);
      if n.None? {
        return Some(ConversionError(ToInt, f.name, text));
      }
      if IsZeroOfUnderlyingType(current, f.kind) {
        record[i] := IntVal(Truncate(f.kind, n.value));
      }
    case Uint | Uint8 | Uint32 | Uint64 =>
      var n := ParseUint(text);
      if n.None? {
        return Some(ConversionError(ToUnsignedInt, f.name, text));
      }
      if IsZeroOfUnderlyingType(current, f.kind) {
        record[i] := UintVal(Truncate(f.kind, n.value));
      }
    case _ =>
    }
    return None;
  }

  /**
   * `populateConfigStruct`: for each field in declaration order, resolves its
   * text and, if there is one, populates the field; returns the first error.
   * With k the first failing field, the fields before k hold their step's
   * value and field k and all later ones keep the values they had.
   */
  method PopulateConfigStruct(fields: seq<Field>, record: array<Value>, resolve: Resolver, parseFloat: FloatParser)
    returns (err: Option<LoadError>)
    requires WellTyped(fields, record[..])
    modifies record
    ensures Outcome(record[..], err) == PopulateFrom(fields, old(record[..]), 0, resolve, parseFloat)
    ensures var k := FirstFailing(fields, old(record[..]), 0, resolve, parseFloat);
      (err.None? <==> k == |fields|) &&
      (k < |fields| ==> err == Some(FieldStep(fields[k], old(record[k]), resolve, parseFloat).error)) &&
      (forall j :: 0 <= j < k ==> record[j] == FieldStep(fields[j], old(record[j]), resolve, parseFloat).value) &&
      (forall j :: k <= j < |fields| ==> record[j] == old(record[j]))
  {
    ghost var initial := record[..];
    var i := 0;
    while i < |fields|
      invariant i <= |fields|
      invariant WellTyped(fields, record[..])
      invariant PopulateFrom(fields, record[..], i, resolve, parseFloat) == PopulateFrom(fields, initial, 0, resolve, parseFloat)
    {
      var text := resolve(fields[i].name);
      ghost var before := record[..];
      if text.Some? {
        err := PopulateStructField(fields[i], record, i, text.value, parseFloat);
        if err.Some? {
          PopulateFromSpec(fields, initial, 0, resolve, parseFloat);
          return;
        }
      } else {
        assert before[i := before[i]] == before;
      }
      assert FieldStep(fields[i], before[i], resolve, parseFloat) == Ok(record[i]);
      assert record[..] == before[i := record[i]];
      i := i + 1;
    }
    err := None;
    PopulateFromSpec(fields, initial, 0, resolve, parseFloat);
  }
}
