/**
 * The six data handlers of main.py: create and list for products, tutorials
 * and messages.
 *
 * The storage helper module is not part of this model. A handler receives
 * it as an optional `Storage` (absent when no database is configured) and
 * returns a `Reply`: the HTTP outcome together with the storage calls it made,
 * so that "no storage call" is a statement about the reply. The request body
 * is validated before the handler runs, as the web framework does, so an
 * invalid body is answered with 422 whether or not storage is configured.
 */
module Handlers {
  import opened Wrappers
  import opened Values
  import opened Schemas
  import opened Serialization

  datatype Kind = ProductKind | TutorialKind | MessageKind

  function CollectionName(k: Kind): string {
    match k
    case ProductKind => "product"
    case TutorialKind => "tutorial"
    case MessageKind => "message"
  }

  // ---------------------------------------------------------------------------
  // Query parameters
  // ---------------------------------------------------------------------------

  const DefaultLimit := 50

  /** The most documents a list handler asks for. */
  function Cap(k: Kind): int {
    match k
    case ProductKind => 100
    case TutorialKind => 100
    case MessageKind => 200
  }

  /** The requested limit, where an absent limit and a limit of 0 (falsy in Python) both fall back to 50. */
  function LimitOrDefault(limit: Option<int>): int {
    match limit
    case None => DefaultLimit
    case Some(n) => if n == 0 then DefaultLimit else n
  }

  /** The limit passed to the store: the requested one or 50, capped from above only, so a negative limit passes through. */
  function EffectiveLimit(limit: Option<int>, k: Kind): (n: int)
    ensures n <= Cap(k)
    ensures limit.None? || limit == Some(0) ==> n == DefaultLimit
    ensures limit.Some? && limit.value < 0 ==> n == limit.value
    ensures limit.Some? && 0 < limit.value <= Cap(k) ==> n == limit.value
    ensures limit.Some? && limit.value >= Cap(k) ==> n == Cap(k)
  {
    var requested := LimitOrDefault(limit);
    if requested < Cap(k) then requested else Cap(k)
  }

  /** An equality filter: each key must hold exactly the given string. */
  type Filter = map<string, string>

  predicate Matches(doc: Doc, filter: Filter) {
    forall k :: k in filter ==> k in doc && doc[k] == Str(filter[k])
  }

  const RoomKey := "room"

  /** The query for a room: no condition for the empty room, otherwise an exact match on the room field. */
  function RoomFilter(room: string): (f: Filter)
    ensures room == "" ==> f == map[]
    ensures room != "" ==> f == map[RoomKey := room]
    ensures forall doc :: Matches(doc, f) <==> room == "" || (RoomKey in doc && doc[RoomKey] == Str(room))
  {
    if room == "" then map[] else map[RoomKey := room]
  }

  // ---------------------------------------------------------------------------
  // Storage, replies and the shared handler steps
  // ---------------------------------------------------------------------------

  /** The storage helper, seen only through the two calls the handlers make. */
  datatype Storage = Storage(
    insert: (string, Doc) -> string,            // create_document(collection, record): the new id
    find: (string, Filter, int) -> seq<Doc>)    // get_documents(collection, filter, limit)

  datatype Call =
    | InsertCall(collection: string, record: Doc)
    | FindCall(collection: string, filter: Filter, limit: int)

  datatype Error =
    | Unprocessable(violations: Violations)    // 422: the body failed validation
    | ServerError(status: int, detail: string)

  const NotConfigured := ServerError(500, "Database not configured")

  /** The HTTP outcome and the storage calls made on the way. */
  datatype Reply<T> = Reply(result: Result<T, Error>, calls: seq<Call>)

  /** The body of every create handler once validation has passed. */
  function Insert(db: Option<Storage>, k: Kind, record: Doc): Reply<string> {
    match db
    case None => Reply(Failure(NotConfigured), [])
    case Some(s) => Reply(Success(s.insert(CollectionName(k), record)), [InsertCall(CollectionName(k), record)])
  }

  /** The body of every list handler. */
  function Find(db: Option<Storage>, k: Kind, filter: Filter, limit: Option<int>, fmt: Formatter): Reply<seq<Doc>> {
    match db
    case None => Reply(Failure(NotConfigured), [])
    case Some(s) =>
      var n := EffectiveLimit(limit, k);
      Reply(Success(SerializeAll(s.find(CollectionName(k), filter, n), fmt)), [FindCall(CollectionName(k), filter, n)])
  }

  /** A list reply: one `find` call on the kind's collection, capped, and its documents serialized in order. */
  predicate Listed(r: Reply<seq<Doc>>, s: Storage, k: Kind, filter: Filter, fmt: Formatter) {
    && |r.calls| == 1
    && r.calls[0].FindCall?
    && r.calls[0].collection == CollectionName(k)
    && r.calls[0].filter == filter
    && r.calls[0].limit <= Cap(k)
    && r.result == Success(SerializeAll(s.find(CollectionName(k), filter, r.calls[0].limit), fmt))
  }

  // ---------------------------------------------------------------------------
  // Handlers
  // ---------------------------------------------------------------------------

  /** POST /api/products */
  function CreateProduct(db: Option<Storage>, body: Doc): (r: Reply<string>)
    ensures !ProductAccepted(body) ==>
      && r.calls == [] && r.result.Failure? && r.result.error.Unprocessable?
      && r.result.error.violations == ViolationsOf(body, ProductSchema) && r.result.error.violations != {}
    ensures ProductAccepted(body) && db.None? ==> r == Reply(Failure(NotConfigured), [])
    ensures ProductAccepted(body) && db.Some? ==>
      && ValidateProduct(body).Success?
      && r.calls == [InsertCall("product", ProductDoc(ValidateProduct(body).value))]
      && r.result == Success(db.value.insert("product", ProductDoc(ValidateProduct(body).value)))
  {
    match ValidateProduct(body)
    case Failure(v) => Reply(Failure(Unprocessable(v)), [])
    case Success(p) => Insert(db, ProductKind, ProductDoc(p))
  }

  /** POST /api/tutorials */
  function CreateTutorial(db: Option<Storage>, body: Doc): (r: Reply<string>)
    ensures !TutorialAccepted(body) ==>
      && r.calls == [] && r.result.Failure? && r.result.error.Unprocessable?
      && r.result.error.violations == ViolationsOf(body, TutorialSchema) && r.result.error.violations != {}
    ensures TutorialAccepted(body) && db.None? ==> r == Reply(Failure(NotConfigured), [])
    ensures TutorialAccepted(body) && db.Some? ==>
      && ValidateTutorial(body).Success?
      && r.calls == [InsertCall("tutorial", TutorialDoc(ValidateTutorial(body).value))]
      && r.result == Success(db.value.insert("tutorial", TutorialDoc(ValidateTutorial(body).value)))
  {
    match ValidateTutorial(body)
    case Failure(v) => Reply(Failure(Unprocessable(v)), [])
    case Success(t) => Insert(db, TutorialKind, TutorialDoc(t))
  }

  /** POST /api/messages */
  function CreateMessage(db: Option<Storage>, body: Doc): (r: Reply<string>)
    ensures !MessageAccepted(body) ==>
      && r.calls == [] && r.result.Failure? && r.result.error.Unprocessable?
      && r.result.error.violations == ViolationsOf(body, MessageSchema) && r.result.error.violations != {}
    ensures MessageAccepted(body) && db.None? ==> r == Reply(Failure(NotConfigured), [])
    ensures MessageAccepted(body) && db.Some? ==>
      && ValidateMessage(body).Success?
      && r.calls == [InsertCall("message", MessageDoc(ValidateMessage(body).value))]
      && r.result == Success(db.value.insert("message", MessageDoc(ValidateMessage(body).value)))
  {
    match ValidateMessage(body)
    case Failure(v) => Reply(Failure(Unprocessable(v)), [])
    case Success(m) => Insert(db, MessageKind, MessageDoc(m))
  }

  /** GET /api/products?limit=N */
  function ListProducts(db: Option<Storage>, limit: Option<int>, fmt: Formatter): (r: Reply<seq<Doc>>)
    ensures db.None? ==> r == Reply(Failure(NotConfigured), [])
    ensures db.Some? ==> Listed(r, db.value, ProductKind, map[], fmt) && r.calls[0].limit == EffectiveLimit(limit, ProductKind)
  {
    Find(db, ProductKind, map[], limit, fmt)
  }

  /** GET /api/tutorials?limit=N */
  function ListTutorials(db: Option<Storage>, limit: Option<int>, fmt: Formatter): (r: Reply<seq<Doc>>)
    ensures db.None? ==> r == Reply(Failure(NotConfigured), [])
    ensures db.Some? ==> Listed(r, db.value, TutorialKind, map[], fmt) && r.calls[0].limit == EffectiveLimit(limit, TutorialKind)
  {
    Find(db, TutorialKind, map[], limit, fmt)
  }

  /** GET /api/messages?room=R&limit=N; the room defaults to "general". */
  function ListMessages(db: Option<Storage>, room: Option<string>, limit: Option<int>, fmt: Formatter): (r: Reply<seq<Doc>>)
    ensures db.None? ==> r == Reply(Failure(NotConfigured), [])
    ensures db.Some? ==>
      && Listed(r, db.value, MessageKind, RoomFilter(room.GetOr(DefaultRoom)), fmt)
      && r.calls[0].limit == EffectiveLimit(limit, MessageKind)
  {
    Find(db, MessageKind, RoomFilter(room.GetOr(DefaultRoom)), limit, fmt)
  }

  // ---------------------------------------------------------------------------
  // Properties of the handlers
  // ---------------------------------------------------------------------------

  /** Without a database every list handler, and every create handler given a valid body, fails with 500 and calls nothing. */
  lemma NotConfiguredEverywhere(body: Doc, room: Option<string>, limit: Option<int>, fmt: Formatter)
    ensures ListProducts(None, limit, fmt) == Reply(Failure(NotConfigured), [])
    ensures ListTutorials(None, limit, fmt) == Reply(Failure(NotConfigured), [])
    ensures ListMessages(None, room, limit, fmt) == Reply(Failure(NotConfigured), [])
    ensures ProductAccepted(body) ==> CreateProduct(None, body) == Reply(Failure(NotConfigured), [])
    ensures TutorialAccepted(body) ==> CreateTutorial(None, body) == Reply(Failure(NotConfigured), [])
    ensures MessageAccepted(body) ==> CreateMessage(None, body) == Reply(Failure(NotConfigured), [])
  {
  }

  /** The store returns at most `n` documents when asked for a positive number `n`. */
  ghost predicate HonoursLimit(s: Storage) {
    forall c, f, n :: n > 0 ==> |s.find(c, f, n)| <= n
  }

  /** The store returns only documents that match the filter. */
  ghost predicate HonoursFilter(s: Storage) {
    forall c, f, n, i :: 0 <= i < |s.find(c, f, n)| ==> Matches(s.find(c, f, n)[i], f)
  }

  /** With a store that honours limits, a non-negative or absent limit yields at most 100 products or tutorials and 200 messages. */
  lemma ListSizesBounded(s: Storage, room: Option<string>, limit: Option<int>, fmt: Formatter)
    requires HonoursLimit(s)
    requires limit.None? || limit.value >= 0
    ensures ListProducts(Some(s), limit, fmt).result.Success?
    ensures |ListProducts(Some(s), limit, fmt).result.value| <= 100
    ensures |ListTutorials(Some(s), limit, fmt).result.value| <= 100
    ensures |ListMessages(Some(s), room, limit, fmt).result.value| <= 200
  {
    assert EffectiveLimit(limit, ProductKind) > 0;
    assert EffectiveLimit(limit, MessageKind) > 0;
  }

  /** With a store that honours filters, every message listed for a non-empty room belongs to that room. */
  lemma ListedMessagesInRoom(s: Storage, room: string, limit: Option<int>, fmt: Formatter)
    requires HonoursFilter(s)
    requires room != ""
    ensures forall d :: d in ListMessages(Some(s), Some(room), limit, fmt).result.value ==>
      RoomKey in d && d[RoomKey] == Str(room)
  {
    var found := s.find("message", RoomFilter(room), EffectiveLimit(limit, MessageKind));
    var listed := ListMessages(Some(s), Some(room), limit, fmt).result.value;
    forall d | d in listed
      ensures RoomKey in d && d[RoomKey] == Str(room)
    {
      var i :| 0 <= i < |listed| && listed[i] == d;
      assert Matches(found[i], RoomFilter(room));
      assert !Reserved(RoomKey);
    }
  }

  // ---------------------------------------------------------------------------
  // Create, then list
  // ---------------------------------------------------------------------------

  /** What the store is taken to keep for an inserted record: the record, a generated `_id` and both timestamps. */
  function Persisted(record: Doc, id: ObjectId, created: Stamp, updated: Stamp): Doc {
    record[IdKey := Oid(id)][CreatedKey := DateTime(created)][UpdatedKey := DateTime(updated)]
  }

  predicate NoReservedNames(schema: Schema) {
    forall i: nat :: i < |schema| ==> !Reserved(schema[i].name)
  }

  lemma ProductNamesNotReserved()
    ensures NoReservedNames(ProductSchema)
  {
  }

  lemma TutorialNamesNotReserved()
    ensures NoReservedNames(TutorialSchema)
  {
  }

  lemma MessageNamesNotReserved()
    ensures NoReservedNames(MessageSchema)
  {
  }

  /** Listing a stored record gives back every schema field unchanged. */
  lemma ListedKeepsFields(record: Doc, schema: Schema, id: ObjectId, created: Stamp, updated: Stamp, fmt: Formatter)
    requires NoReservedNames(schema)
    ensures SameFields(SerializeDoc(Persisted(record, id, created, updated), fmt), record, schema)
  {
    var stored := Persisted(record, id, created, updated);
    forall i: nat | i < |schema|
      ensures Lookup(SerializeDoc(stored, fmt), schema[i].name) == Lookup(record, schema[i].name)
    {
      assert !Reserved(schema[i].name);
    }
  }

  /** A created listing, once stored and listed, validates back to the listing submitted and carries the public id. */
  lemma ProductCreateThenList(p: Product, id: ObjectId, created: Stamp, updated: Stamp, fmt: Formatter)
    requires p.Valid()
    ensures var listed := SerializeDoc(Persisted(ProductDoc(p), id, created, updated), fmt);
      && IdKey !in listed
      && PublicIdKey in listed && listed[PublicIdKey] == Str(fmt.str(Oid(id)))
      && ValidateProduct(listed) == Success(p)
  {
    var listed := SerializeDoc(Persisted(ProductDoc(p), id, created, updated), fmt);
    ProductNamesNotReserved();
    ListedKeepsFields(ProductDoc(p), ProductSchema, id, created, updated, fmt);
    ProductIgnoresOtherKeys(listed, ProductDoc(p));
    ProductRoundTrip(p);
  }

  lemma TutorialCreateThenList(t: Tutorial, id: ObjectId, created: Stamp, updated: Stamp, fmt: Formatter)
    requires t.Valid()
    ensures var listed := SerializeDoc(Persisted(TutorialDoc(t), id, created, updated), fmt);
      && IdKey !in listed
      && PublicIdKey in listed && listed[PublicIdKey] == Str(fmt.str(Oid(id)))
      && ValidateTutorial(listed) == Success(t)
  {
    var listed := SerializeDoc(Persisted(TutorialDoc(t), id, created, updated), fmt);
    TutorialNamesNotReserved();
    ListedKeepsFields(TutorialDoc(t), TutorialSchema, id, created, updated, fmt);
    TutorialIgnoresOtherKeys(listed, TutorialDoc(t));
    TutorialRoundTrip(t);
  }

  lemma MessageCreateThenList(m: Message, id: ObjectId, created: Stamp, updated: Stamp, fmt: Formatter)
    requires m.Valid()
    ensures var listed := SerializeDoc(Persisted(MessageDoc(m), id, created, updated), fmt);
      && IdKey !in listed
      && PublicIdKey in listed && listed[PublicIdKey] == Str(fmt.str(Oid(id)))
      && ValidateMessage(listed) == Success(m)
  {
    var listed := SerializeDoc(Persisted(MessageDoc(m), id, created, updated), fmt);
    MessageNamesNotReserved();
    ListedKeepsFields(MessageDoc(m), MessageSchema, id, created, updated, fmt);
    MessageIgnoresOtherKeys(listed, MessageDoc(m));
    MessageRoundTrip(m);
  }
}
