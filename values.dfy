/** Boxed values as a temp-data store holds them, the type argument T of a
    typed read, and the runtime type test `value is T` used by both readers. */
module Values {

  datatype Option<+T> = None | Some(value: T) {
    function GetOr(default: T): T {
      match this
      case Some(v) => v
      case None => default
    }
  }

  /** An `object?` held by the store. Enumeration values carry the name of
      their enum type and their numeric value; VNull is the null reference. */
  datatype Value =
    | VNull
    | VStr(s: string)
    | VInt(i: int)
    | VEnum(enumName: string, ordinal: int)

  /** A non-nullable value type a reader can ask for. */
  datatype ValueType = IntType | EnumType(name: string)

  /** The type argument T of `TryGetValue<T>` / `TryGet<T>`. */
  datatype TypeTag =
    | StringType            // string: a reference type, so null is a legal value
    | Plain(vt: ValueType)  // int, or an enum E
    | Nullable(vt: ValueType)  // int? or E?, i.e. Nullable<U>

  /** What one typed read yields: the boolean result and the out value. */
  datatype Read = Read(ok: bool, value: Value)

  /** `Enum.ToObject(enumType, i)` either yields the value of that enum with
      numeric value i or throws; `converts(name, i)` says which. */
  type EnumConversion = (string, int) -> bool

  /** The value type a (possibly nullable) value-type tag is about. */
  function Underlying(t: TypeTag): Option<ValueType> {
    match t
    case StringType => None
    case Plain(vt) => Some(vt)
    case Nullable(vt) => Some(vt)
  }

  /** The enum type behind `Nullable.GetUnderlyingType(typeof(T)) ?? typeof(T)`, if it is one. */
  function UnderlyingEnum(t: TypeTag): (e: Option<string>)
    // an enum or a nullable enum, never string
    ensures e.Some? <==> !t.StringType? && t.vt.EnumType?
    ensures e.Some? ==> e.value == t.vt.name
  {
    match Underlying(t)
    case Some(EnumType(n)) => Some(n)
    case _ => None
  }

  /** The enum type T itself when `typeof(T).IsEnum` (a Nullable<E> is not an enum). */
  function DirectEnum(t: TypeTag): (e: Option<string>)
    ensures e.Some? <==> t.Plain? && t.vt.EnumType?
    // the two enum tests disagree exactly on a nullable enum
    ensures e != UnderlyingEnum(t) <==> t.Nullable? && t.vt.EnumType?
    ensures e.Some? ==> e == UnderlyingEnum(t)
  {
    match t
    case Plain(EnumType(n)) => Some(n)
    case _ => None
  }

  predicate BoxedAs(v: Value, vt: ValueType) {
    match vt
    case IntType => v.VInt?
    case EnumType(n) => v.VEnum? && v.enumName == n
  }

  /** `v is T`: never true of null; a test for Nullable<U> accepts exactly a boxed U. */
  predicate IsInstance(v: Value, t: TypeTag)
    ensures IsInstance(v, t) ==> v != VNull
    // a boxed number is never an enum value, and a boxed enum value never a number
    ensures v.VInt? && IsInstance(v, t) ==> UnderlyingEnum(t).None?
  {
    match t
    case StringType => v.VStr?
    case Plain(vt) => BoxedAs(v, vt)
    case Nullable(vt) => BoxedAs(v, vt)
  }

  /** `is U?` and `is U` accept the same boxed values. */
  lemma NullableTestMatchesPlain(v: Value, vt: ValueType)
    ensures IsInstance(v, Nullable(vt)) <==> IsInstance(v, Plain(vt))
  {
  }

  /** Whether null is a legal value of T. */
  predicate AdmitsNull(t: TypeTag) {
    !t.Plain?
  }

  /** v is a legal value of a variable of type T. */
  predicate HasType(v: Value, t: TypeTag) {
    IsInstance(v, t) || (v == VNull && AdmitsNull(t))
  }

  /** default(T): null for reference and nullable types, zero otherwise. */
  function Default(t: TypeTag): (d: Value)
    ensures HasType(d, t)
    ensures d == VNull <==> AdmitsNull(t)
  {
    match t
    case StringType => VNull
    case Nullable(_) => VNull
    case Plain(IntType) => VInt(0)
    case Plain(EnumType(n)) => VEnum(n, 0)
  }
}
