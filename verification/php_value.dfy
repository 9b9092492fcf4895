/**
 * The PHP values the core passes around: scalars, objects and (nested,
 * ordered) arrays. Objects are the two kinds of domain wrapper, the two
 * driver classes they pair with, and objects of any other class.
 */
module PhpValue {

  /** Array keys: PHP arrays are keyed by integers or strings. */
  datatype Key = IntKey(i: int) | StrKey(s: string)

  /** The two semantic kinds that have a domain wrapper and a driver class. */
  datatype Kind = ObjectIdKind | UtcDateTimeKind

  /**
   * Opaque identity of what an object holds (the id bytes of an ObjectID,
   * the instant of a UTCDateTime, the state of any other object).
   */
  type Payload = nat

  const DomainObjectIdClass := "Mongolid\\Serializer\\Type\\ObjectID"
  const DomainUtcDateTimeClass := "Mongolid\\Serializer\\Type\\UTCDateTime"
  const NativeObjectIdClass := "MongoDB\\BSON\\ObjectID"
  const NativeUtcDateTimeClass := "MongoDB\\BSON\\UTCDateTime"

  const KnownClasses: set<string> :=
    {DomainObjectIdClass, DomainUtcDateTimeClass, NativeObjectIdClass, NativeUtcDateTimeClass}

  /** Class names of objects that are neither a domain wrapper nor a driver value. */
  type ForeignClass = c: string | c !in KnownClasses witness "stdClass"

  datatype Value =
    | Null
    | Bool(b: bool)
    | Int(i: int)
    | Str(s: string)
      /** An instance of a domain wrapper; these implement SerializableTypeInterface. */
    | Domain(kind: Kind, payload: Payload)
      /** An instance of the driver class paired with `kind`. */
    | Native(kind: Kind, payload: Payload)
      /** An object of any other class; it does not implement SerializableTypeInterface. */
    | Foreign(cls: ForeignClass, payload: Payload)
      /** A PHP array: ordered key/value entries, possibly nested. */
    | Array(entries: seq<(Key, Value)>)

  function DomainClassName(k: Kind): string
  {
    match k
    case ObjectIdKind => DomainObjectIdClass
    case UtcDateTimeKind => DomainUtcDateTimeClass
  }

  function NativeClassName(k: Kind): string
  {
    match k
    case ObjectIdKind => NativeObjectIdClass
    case UtcDateTimeKind => NativeUtcDateTimeClass
  }

  /** PHP's is_object. */
  predicate IsObject(v: Value): (r: bool)
    ensures r <==> !(v.Null? || v.Bool? || v.Int? || v.Str? || v.Array?)
  {
    v.Domain? || v.Native? || v.Foreign?
  }

  /** PHP's get_class: the exact runtime class name of an object. */
  function ClassOf(v: Value): (name: string)
    requires IsObject(v)
    ensures name in KnownClasses <==> !v.Foreign?
    ensures v.Foreign? ==> name == v.cls
  {
    match v
    case Domain(k, _) => DomainClassName(k)
    case Native(k, _) => NativeClassName(k)
    case Foreign(c, _) => c
  }
}
