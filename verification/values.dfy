/**
 * The JSON-like values that travel through the backend: request bodies before
 * validation and documents as the store returns them share this one type.
 */
module Values {
  import opened Wrappers

  /** A store-generated document identifier (a BSON ObjectId), kept opaque. */
  datatype ObjectId = ObjectId(bits: nat)

  /** A date-time value, i.e. anything that has an `isoformat` method; kept opaque. */
  datatype Stamp = Stamp(ticks: int)

  datatype Value =
    | Null                   // JSON null / Python None
    | Bool(b: bool)
    | Num(x: real)           // a JSON number; floating point is not modelled
    | Str(s: string)
    | Oid(oid: ObjectId)     // only ever produced by the store
    | DateTime(stamp: Stamp) // only ever produced by the store
    | Opaque(tag: nat)       // arrays, nested objects and other values, compared by equality only

  /** A request body or a stored document: field name to value. */
  type Doc = map<string, Value>

  /** The entry under `k`, if the document has one. */
  function Lookup(d: Doc, k: string): Option<Value> {
    if k in d then Some(d[k]) else None
  }

  /** An optional string as a document value: `None` is stored as null. */
  function Nullable(s: Option<string>): Value {
    match s
    case Some(t) => Str(t)
    case None => Null
  }
}
