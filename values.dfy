/**
 * The values callers put into and take out of the caches. A cached object is
 * described by its runtime type and its textual form (what ToString returns),
 * which is all the cache clients ever inspect.
 */
module Values {
  import opened Text

  /** The runtime types a caller can ask Get<T> for. */
  datatype Ty =
    | StringTy
    | IntegerTy(lo: int, hi: int)   // a numeric value type (int, long, short, ...) with its range
    | BoolTy                        // a value type that is not numeric
    | NullableTy(underlying: Ty)    // Nullable<T> over a value type
    | ClassTy(name: string)         // a reference type other than string and byte[]
    | BytesTy                       // byte[]
    | ObjectTy                      // object

  const Int32Ty: Ty := IntegerTy(Int32Min, Int32Max)

  /** null, DBNull.Value, or an object of runtime type `ty` whose ToString() is `text`. */
  datatype Value = Null | DbNull | Obj(ty: Ty, text: string)

  /** The boxed integer 1 that the markers and trackers store. */
  const One: Value := Obj(Int32Ty, "1")

  predicate IsValueType(t: Ty) { t.IntegerTy? || t.BoolTy? || t.NullableTy? }

  /** default(T): zero or false for the value types, null for Nullable<T> and the reference types. */
  function Default(t: Ty): (v: Value)
    ensures v == Null <==> !IsValueType(t) || t.NullableTy?
    ensures v != Null ==> v.Obj? && v.ty == t
  {
    if t.IntegerTy? then Obj(t, "0")
    else if t.BoolTy? then Obj(t, "False")
    else Null
  }

  /** Object.ToString() of a non-null value. */
  function ToString(v: Value): string
    requires v != Null
  {
    if v.DbNull? then "" else v.text
  }

  /** Nullable<T> is formed only over the non-nullable value types. */
  predicate ValidTy(t: Ty)
  {
    t.NullableTy? ==> t.underlying.IntegerTy? || t.underlying.BoolTy?
  }

  /** An object can be read back as its own type, or as the Nullable form of its value type. */
  predicate ReadableAs(v: Value, t: Ty)
    requires v.Obj?
  {
    v.ty == t || (t == NullableTy(v.ty) && (v.ty.IntegerTy? || v.ty.BoolTy?))
  }

  /** Whether the cast `(T) value` of a non-null object succeeds: same type, object, or the Nullable wrapper of an unboxed value. */
  predicate CastSucceeds(v: Value, t: Ty)
  {
    v.Obj? && (v.ty == t || t == ObjectTy || t == NullableTy(v.ty))
  }
}
