/**
 * The part of Go's run-time type information the loader consults, made
 * explicit: a configuration record is a sequence of field descriptors (name,
 * struct tag, kind) beside the current values of those fields, and the
 * argument handed to `Load` is described by its shape.
 */
module Reflect {
  import opened Wrappers

  /** Every `reflect.Kind` Go defines. */
  datatype Kind =
    | Invalid | Bool
    | Int | Int8 | Int16 | Int32 | Int64
    | Uint | Uint8 | Uint16 | Uint32 | Uint64 | Uintptr
    | Float32 | Float64 | Complex64 | Complex128
    | Array | Chan | Func | Interface | Map | Ptr | Slice | String | Struct | UnsafePointer

  predicate IsSignedKind(k: Kind) { k.Int? || k.Int8? || k.Int16? || k.Int32? || k.Int64? }

  predicate IsUnsignedKind(k: Kind) { k.Uint? || k.Uint8? || k.Uint16? || k.Uint32? || k.Uint64? || k.Uintptr? }

  predicate IsFloatKind(k: Kind) { k.Float32? || k.Float64? }

  /** 2 to the bit width of an integer kind; `int`, `uint` and `uintptr` are taken to be 64 bits wide. */
  function Modulus(k: Kind): (m: int)
    requires IsSignedKind(k) || IsUnsignedKind(k)
    ensures m >= 0x100
  {
    match k
    case Int8 | Uint8 => 0x100
    case Int16 | Uint16 => 0x1_0000
    case Int32 | Uint32 => 0x1_0000_0000
    case _ => 0x1_0000_0000_0000_0000
  }

  /** The values a field of integer kind `k` can hold. */
  predicate InRange(k: Kind, n: int)
    requires IsSignedKind(k) || IsUnsignedKind(k)
  {
    if IsSignedKind(k) then -(Modulus(k) / 2) <= n < Modulus(k) / 2 else 0 <= n < Modulus(k)
  }

  /** `n` reduced modulo `m` into the window that starts at `low`. */
  function Wrap(n: int, low: int, m: int): (r: int)
    requires m > 0
    ensures low <= r < low + m
    ensures low <= n < low + m ==> r == n
  {
    (n - low) % m + low
  }

  /**
   * What `reflect.Value.SetInt` / `SetUint` store when handed a 64-bit number:
   * the number reduced, two's-complement style, to the width of the field.
   */
  function Truncate(k: Kind, n: int): (r: int)
    requires IsSignedKind(k) || IsUnsignedKind(k)
    ensures InRange(k, r)
    ensures InRange(k, n) ==> r == n
  {
    var m := Modulus(k);
    if IsSignedKind(k) then Wrap(n, -(m / 2), m) else Wrap(n, 0, m)
  }

  /** The current value of one field. */
  datatype Value =
    | StrVal(s: string)
    | BoolVal(b: bool)
    | IntVal(i: int)
    | UintVal(u: nat)
    | FloatVal(x: real)
      /** a value of a kind the loader never reads or writes (struct, slice, map, pointer, ...), seen only by its identity */
    | Other(id: nat)

  /** `v` is a value a field of kind `k` can hold. */
  predicate HasKind(v: Value, k: Kind)
  {
    if k.String? then v.StrVal?
    else if k.Bool? then v.BoolVal?
    else if IsFloatKind(k) then v.FloatVal?
    else if IsSignedKind(k) then v.IntVal? && InRange(k, v.i)
    else if IsUnsignedKind(k) then v.UintVal? && InRange(k, v.u)
    else v.Other?
  }

  /** `reflect.Zero(t)`: the value a field of kind `k` holds before anyone sets it. */
  function ZeroValue(k: Kind): (v: Value)
    ensures HasKind(v, k)
  {
    if k.String? then StrVal("")
    else if k.Bool? then BoolVal(false)
    else if IsFloatKind(k) then FloatVal(0.0)
    else if IsSignedKind(k) then IntVal(0)
    else if IsUnsignedKind(k) then UintVal(0)
    else Other(0)
  }

  /** One `reflect.StructField`: its name, its struct tag as key/value pairs, and the kind of its type. */
  datatype Field = Field(name: string, tag: map<string, string>, kind: Kind)

  /** `reflect.StructTag.Get`: the value under `key`, or "" when the tag has none. */
  function TagGet(f: Field, key: string): (v: string)
    ensures key !in f.tag ==> v == ""
  {
    if key in f.tag then f.tag[key] else ""
  }

  /**
   * `go/ast.IsExported`, for names whose first character is ASCII: a name is
   * exported when it starts with an upper-case letter, so the empty name, a
   * name starting with a lower-case letter, a digit or an underscore is not.
   */
  predicate IsExported(name: string)
  {
    |name| > 0 && 'A' <= name[0] <= 'Z'
  }

  /** How the first character decides `IsExported`: an empty name is never exported, an upper-case initial always is, a lower-case letter, a digit or an underscore never is. */
  lemma ExportedInitial(name: string)
    ensures IsExported(name) ==> |name| > 0
    ensures |name| > 0 && 'A' <= name[0] <= 'Z' ==> IsExported(name)
    ensures |name| > 0 && ('a' <= name[0] <= 'z' || '0' <= name[0] <= '9' || name[0] == '_') ==> !IsExported(name)
  {
  }

  /** Go requires the non-blank field names of one struct type to be distinct; several fields may be named `_`. */
  predicate DistinctNames(fields: seq<Field>)
  {
    forall i, j :: 0 <= i < j < |fields| && fields[i].name != "_" ==> fields[i].name != fields[j].name
  }

  /** A struct with two blank fields satisfies DistinctNames, as Go accepts it. */
  lemma BlankFieldsAllowed(kind: Kind)
    ensures DistinctNames([Field("_", map[], kind), Field("_", map[], kind)])
  {
  }

  /** The field values match the descriptors, one per field and each of its field's kind. */
  predicate WellTyped(fields: seq<Field>, values: seq<Value>)
  {
    |values| == |fields| && forall i :: 0 <= i < |fields| ==> HasKind(values[i], fields[i].kind)
  }

  type DirectKind = k: Kind | !k.Ptr? witness Invalid

  /**
   * The shape of the `interface{}` argument given to `Load`: a value that is not
   * a pointer (an untyped nil is `Direct(Invalid)`), or a pointer, nil or not.
   */
  datatype Arg = Direct(kind: DirectKind) | Pointer(target: Option<Arg>)

  /** `reflect.ValueOf(a).Kind()`. */
  function KindOf(a: Arg): Kind
  {
    match a
    case Direct(k) => k
    case Pointer(_) => Ptr
  }

  /** `reflect.ValueOf(a).Elem().Kind()` for a pointer; a nil pointer's element is the invalid value. */
  function ElemKind(a: Arg): Kind
    requires a.Pointer?
  {
    match a.target
    case None => Invalid
    case Some(t) => KindOf(t)
  }
}
