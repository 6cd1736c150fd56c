/**
 * Turning a stored document into its JSON-safe form (`serialize_doc`,
 * main.py): a non-null `_id` is renamed to `id` and rendered as text, and
 * `created_at` / `updated_at` are rendered as ISO 8601 text when they hold
 * date-time values. Every other key is left alone.
 *
 * Python's `str()` and `datetime.isoformat()` are not modelled; they enter as
 * the two functions of a `Formatter`.
 */
module Serialization {
  import opened Values

  /** Stand-ins for rendering a value as text and a date-time as ISO 8601 text. */
  datatype Formatter = Formatter(str: Value -> string, iso: Stamp -> string)

  const IdKey := "_id"
  const PublicIdKey := "id"
  const CreatedKey := "created_at"
  const UpdatedKey := "updated_at"

  /** The keys `serialize_doc` may touch. */
  predicate Reserved(k: string) {
    k == IdKey || k == PublicIdKey || k == CreatedKey || k == UpdatedKey
  }

  /** The identifier is present and not null. */
  predicate HasId(doc: Doc) {
    IdKey in doc && !doc[IdKey].Null?
  }

  /** Rename a non-null `_id` to `id`, rendering it with `str`. */
  function RenameId(doc: Doc, fmt: Formatter): Doc {
    if HasId(doc) then (doc - {IdKey})[PublicIdKey := Str(fmt.str(doc[IdKey]))] else doc
  }

  /** Render the entry under `k` as ISO 8601 text when it is a date-time. */
  function RenderStamp(doc: Doc, k: string, fmt: Formatter): Doc {
    if k in doc && doc[k].DateTime? then doc[k := Str(fmt.iso(doc[k].stamp))] else doc
  }

  /** The entry under `k` in `out` is the entry in `doc`, rendered if it was a date-time. */
  predicate StampRendered(doc: Doc, out: Doc, k: string, fmt: Formatter) {
    && (k in out <==> k in doc)
    && (k in doc ==> out[k] == if doc[k].DateTime? then Str(fmt.iso(doc[k].stamp)) else doc[k])
  }

  function SerializeDoc(doc: Doc, fmt: Formatter): (out: Doc)
    ensures HasId(doc) ==> IdKey !in out && PublicIdKey in out && out[PublicIdKey] == Str(fmt.str(doc[IdKey]))
    ensures !HasId(doc) ==> Lookup(out, IdKey) == Lookup(doc, IdKey) && Lookup(out, PublicIdKey) == Lookup(doc, PublicIdKey)
    ensures out.Keys == if HasId(doc) then doc.Keys - {IdKey} + {PublicIdKey} else doc.Keys
    ensures forall k :: k in doc && !Reserved(k) ==> k in out && out[k] == doc[k]
    ensures StampRendered(doc, out, CreatedKey, fmt) && StampRendered(doc, out, UpdatedKey, fmt)
  {
    RenderStamp(RenderStamp(RenameId(doc, fmt), CreatedKey, fmt), UpdatedKey, fmt)
  }

  /** A document `serialize_doc` has nothing left to do on. */
  predicate Serialized(doc: Doc) {
    && !HasId(doc)
    && (CreatedKey in doc ==> !doc[CreatedKey].DateTime?)
    && (UpdatedKey in doc ==> !doc[UpdatedKey].DateTime?)
  }

  /** The output is always serialized, and a serialized document is a fixed point. */
  lemma SerializedFixedPoint(doc: Doc, fmt: Formatter)
    ensures Serialized(SerializeDoc(doc, fmt))
    ensures Serialized(doc) ==> SerializeDoc(doc, fmt) == doc
  {
  }

  /** Serializing twice is serializing once. */
  lemma SerializeIdempotent(doc: Doc, fmt: Formatter)
    ensures SerializeDoc(SerializeDoc(doc, fmt), fmt) == SerializeDoc(doc, fmt)
  {
    SerializedFixedPoint(doc, fmt);
    SerializedFixedPoint(SerializeDoc(doc, fmt), fmt);
  }

  /**
   * When `str` renders different ObjectIds as different texts, documents whose
   * identifiers are different ObjectIds get different public ids.
   */
  lemma DistinctIdsStayDistinct(a: Doc, b: Doc, fmt: Formatter)
    requires forall x: ObjectId, y: ObjectId :: fmt.str(Oid(x)) == fmt.str(Oid(y)) ==> x == y
    requires HasId(a) && HasId(b) && a[IdKey].Oid? && b[IdKey].Oid? && a[IdKey] != b[IdKey]
    ensures SerializeDoc(a, fmt)[PublicIdKey] != SerializeDoc(b, fmt)[PublicIdKey]
  {
  }

  /** Every document of a listing serialized, in the order given. */
  function SerializeAll(docs: seq<Doc>, fmt: Formatter): (out: seq<Doc>)
    ensures |out| == |docs|
    ensures forall i :: 0 <= i < |docs| ==> out[i] == SerializeDoc(docs[i], fmt)
  {
    if docs == [] then [] else [SerializeDoc(docs[0], fmt)] + SerializeAll(docs[1..], fmt)
  }

  /** Serializing a listing twice is serializing it once. */
  lemma {:induction false} SerializeAllIdempotent(docs: seq<Doc>, fmt: Formatter)
    ensures SerializeAll(SerializeAll(docs, fmt), fmt) == SerializeAll(docs, fmt)
  {
    var once := SerializeAll(docs, fmt);
    forall i | 0 <= i < |docs|
      ensures SerializeAll(once, fmt)[i] == once[i]
    {
      SerializeIdempotent(docs[i], fmt);
    }
  }
}
