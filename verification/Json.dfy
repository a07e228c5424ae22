/** Decoded JSON documents, as the administration service exchanges and stores them.
    Object members are named by an enumeration; every other key is `Other`. */
module Json {
  datatype Field =
    | Name | MessageLifetimes | DefaultMessageLifetime | CreationMode | AllowedCreators | ManagedProvider
    | Provider | AllowedOwners | FolderLink | WriteAuth
    | S3Endpoint | S3Region | S3Bucket | S3AccessKey | S3SecretKey
    | Endpoint | Region | Bucket | AccessKey | SecretKey
    | AllowedMessageRetentions | Revision | Storage | Url | Managed | RetentionHours | ManagedStorage
    | Record | Link | StorageAvailable
    | IdField | PhaseField | PreviousField | PathField | ContentField | UidField | GidField | ModeField
    | Other(key: string)

  datatype Value =
    | Null
    | Bool(flag: bool)
    | Int(number: int)
    | Overflow(negative: bool)  // a number such as 1e999, which is read as an infinity
    | Str(text: string)
    | List(items: seq<Value>)
    | Object(fields: map<Field, Value>)

  /** `dict.get(key)`: a missing member reads as None. */
  function Get(m: map<Field, Value>, key: Field): Value {
    if key in m then m[key] else Null
  }

  /** No infinity in it: those are written as `Infinity`, which the decoder refuses. */
  predicate Finite(v: Value) {
    match v
    case Overflow(_) => false
    case List(items) => forall i | 0 <= i < |items| :: Finite(items[i])
    case Object(fields) => forall k | k in fields :: Finite(fields[k])
    case _ => true
  }

  /** Python truthiness. */
  predicate Truthy(v: Value) {
    match v
    case Null => false
    case Bool(b) => b
    case Int(n) => n != 0
    case Overflow(_) => true
    case Str(s) => s != ""
    case List(items) => items != []
    case Object(fields) => fields != map[]
  }

  /** The values that count as false. */
  lemma FalsyValues(v: Value)
    ensures !Truthy(v) <==>
              v == Null || v == Bool(false) || v == Int(0) || v == Str("") || v == List([]) || v == Object(map[])
  {
  }
}
