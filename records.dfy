/** Values shared by every writer: Go kinds, field declarations, struct types,
    records, errors and the outcome of a call that may panic. */
module Records {
  import Decimal

  datatype Option<+T> = None | Some(value: T)

  /** A Go `error`; the model only needs its message. */
  datatype Error = Error(message: string)

  /** The result of a call that may return a value or may panic. */
  datatype Outcome<+T> = Returned(value: T) | Panicked(message: string)

  /** A value or an error, as returned by a Go call with an `(x, error)` result. */
  datatype Result<+T> = Ok(value: T) | Err(error: Error)

  /** The message Go's runtime panics with when a nil pointer is dereferenced. */
  const NilDereference: string := "runtime error: invalid memory address or nil pointer dereference"

  /** The kinds of Go's `reflect.Kind`. */
  datatype Kind =
    | Invalid | Bool | Int | Int8 | Int16 | Int32 | Int64
    | Uint | Uint8 | Uint16 | Uint32 | Uint64 | Uintptr
    | Float32 | Float64 | Complex64 | Complex128
    | ArrayKind | Chan | Func | Interface | MapKind | Pointer | Slice
    | String | Struct | UnsafePointer

  /** `reflect.Kind.String()`. */
  function KindName(k: Kind): string
  {
    match k
    case Invalid => "invalid"
    case Bool => "bool"
    case Int => "int"
    case Int8 => "int8"
    case Int16 => "int16"
    case Int32 => "int32"
    case Int64 => "int64"
    case Uint => "uint"
    case Uint8 => "uint8"
    case Uint16 => "uint16"
    case Uint32 => "uint32"
    case Uint64 => "uint64"
    case Uintptr => "uintptr"
    case Float32 => "float32"
    case Float64 => "float64"
    case Complex64 => "complex64"
    case Complex128 => "complex128"
    case ArrayKind => "array"
    case Chan => "chan"
    case Func => "func"
    case Interface => "interface"
    case MapKind => "map"
    case Pointer => "ptr"
    case Slice => "slice"
    case String => "string"
    case Struct => "struct"
    case UnsafePointer => "unsafe.Pointer"
  }

  predicate IsSignedKind(k: Kind) { k.Int? || k.Int8? || k.Int16? || k.Int32? || k.Int64? }
  predicate IsUnsignedKind(k: Kind) { k.Uint? || k.Uint8? || k.Uint16? || k.Uint32? || k.Uint64? || k.Uintptr? }

  /** The number of values of an integer kind's width, 2^width; `int`, `uint` and `uintptr` are
      taken as 64 bits wide. */
  function Modulus(k: Kind): nat
    requires IsSignedKind(k) || IsUnsignedKind(k)
  {
    match k
    case Int8 => 0x100
    case Uint8 => 0x100
    case Int16 => 0x1_0000
    case Uint16 => 0x1_0000
    case Int32 => 0x1_0000_0000
    case Uint32 => 0x1_0000_0000
    case _ => 0x1_0000_0000_0000_0000
  }

  /** A field's current value, as `reflect.Value.Interface()` would hand it out.
      Floating point and composite values carry their `%v` rendering. */
  datatype Value =
    | Str(s: string)
    | IntVal(i: int)
    | UintVal(n: nat)
    | BoolVal(b: bool)
    | Float32Val(shown32: string)
    | Float64Val(shown64: string)
    | Opaque(shown: string)

  /** A value a field of kind `k` can hold. */
  predicate Fits(k: Kind, v: Value)
  {
    match v
    case Str(_) => k == String
    case IntVal(i) => IsSignedKind(k) && -(Modulus(k) / 2) <= i < Modulus(k) / 2
    case UintVal(n) => IsUnsignedKind(k) && n < Modulus(k)
    case BoolVal(_) => k == Bool
    case Float32Val(_) => k == Float32
    case Float64Val(_) => k == Float64
    case Opaque(_) => !IsSignedKind(k) && !IsUnsignedKind(k) && !k.String? && !k.Bool? && !k.Float32? && !k.Float64?
  }

  /** `fmt.Sprintf("%v", v)`; the rendering of floats and composite values is taken as given. */
  function Sprint(v: Value): string
  {
    match v
    case Str(s) => s
    case IntVal(i) => Decimal.FormatInt(i)
    case UintVal(n) => Decimal.FormatNat(n)
    case BoolVal(b) => if b then "true" else "false"
    case Float32Val(s) => s
    case Float64Val(s) => s
    case Opaque(s) => s
  }

  /** One field of a struct declaration: its name, its kind, its declared type as `%T` prints it
      (`int` for an `int` field, `main.UserID` for a field of `type UserID int`), and the value of
      its `peanut` tag key (`""` when the field has no such key). */
  datatype FieldDecl = FieldDecl(name: string, kind: Kind, typeName: string, tag: string)

  /** The message of the panic of a failed type assertion `v.(asserted)` on a value whose dynamic
      type is `dynamic`. */
  function ConversionMessage(dynamic: string, asserted: string): string
  {
    "interface conversion: interface {} is " + dynamic + ", not " + asserted
  }

  /** A named struct type. Two types are the same key exactly when package, name and fields agree. */
  datatype StructType = StructType(pkg: string, name: string, fields: seq<FieldDecl>)

  /** The dynamic type of a value passed to `Write`: a struct, or a pointer to a type. */
  datatype DynType = StructOf(st: StructType) | PointerTo(elem: DynType)

  /** A value passed to `Write`: its dynamic type and the values of all its struct fields,
      in declaration order. */
  datatype Record = Record(typ: DynType, values: seq<Value>)

  /** The last non-nil error of a sequence of results, as a loop that keeps overwriting one
      error variable with every non-nil result leaves it. */
  function LastError(errs: seq<Option<Error>>): Option<Error>
    decreases |errs|
  {
    if errs == [] then None
    else if errs[|errs| - 1].Some? then errs[|errs| - 1]
    else LastError(errs[..|errs| - 1])
  }

  /** One more result: a non-nil one overwrites the error kept so far. */
  lemma LastErrorSnoc(errs: seq<Option<Error>>, e: Option<Error>)
    ensures LastError(errs + [e]) == if e.Some? then e else LastError(errs)
  {
    assert (errs + [e])[..|errs|] == errs;
  }

  /** `LastError` is nil exactly when every result is nil; otherwise it is the last non-nil result. */
  lemma {:induction false} LastErrorSpec(errs: seq<Option<Error>>)
    ensures LastError(errs).None? <==> forall i :: 0 <= i < |errs| ==> errs[i].None?
    ensures LastError(errs).Some? ==>
      exists i :: 0 <= i < |errs| && errs[i] == LastError(errs) && forall j :: i < j < |errs| ==> errs[j].None?
    decreases |errs|
  {
    if errs != [] && errs[|errs| - 1].None? {
      var init := errs[..|errs| - 1];
      LastErrorSpec(init);
      assert forall i :: 0 <= i < |init| ==> init[i] == errs[i];
      if LastError(init).Some? {
        var i :| 0 <= i < |init| && init[i] == LastError(init) && forall j :: i < j < |init| ==> init[j].None?;
        assert errs[i] == LastError(errs);
      }
    }
  }
}
