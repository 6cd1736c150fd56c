# FarmConnect backend — a Dafny model of its validation, serialisation and handlers

FarmConnect is a small REST backend with three document kinds: marketplace
listings (`product`), tutorials (`tutorial`) and community chat messages
(`message`). Each kind has a create handler and a list handler over a
document database. This project models the backend's pure logic and proves
properties about it:

- **Validation** (`schemas.dfy`, module `Schemas`). The pydantic models
  `Product`, `Tutorial` and `Message` become Dafny datatypes. A request body is
  a `Doc` (`map<string, Value>`); a field the client did not send is a missing
  key. Each kind is described by a `Schema`: one `FieldSpec` per declared
  field. `Check` applies one field's rule. `ValidateProduct`,
  `ValidateTutorial` and `ValidateMessage` return either the record, with
  defaults filled in, or the set of `Violation`s (at most one per field).
  Keys outside the schema are ignored, as pydantic does by default.
- **Serialisation** (`serialization.dfy`, module `Serialization`).
  `SerializeDoc` is `serialize_doc`. It renames a non-null `_id` to `id`,
  rendered with `str`. It renders `created_at`/`updated_at` with `isoformat`
  when they hold date-time values. Python's `str()` and `isoformat()` are left
  uninterpreted: they are the two functions of a `Formatter` parameter.
- **Handlers** (`handlers.dfy`, module `Handlers`). The six data handlers.
  The storage helper module is a `Storage` parameter holding two functions,
  `insert` and `find`. It is `None` when no database is configured. A handler
  returns a `Reply`: the HTTP outcome plus the list of storage calls it made.
  This makes "no storage call when the database is absent" a provable
  statement. It also covers the limit clamp `min(limit or 50, cap)` and the
  room filter.

`values.dfy` holds the shared `Value`/`Doc` types. `wrappers.dfy` holds
`Option` and `Result`.

Message length is counted in characters. Dafny's `char` is a Unicode scalar
value, which matches Python's `len` on `str`. A JSON number is a `real`.

Validation follows pydantic 2's rules:
- an `int` field accepts a whole number such as `10.0` and rejects `10.5`;
- a `str` field rejects numbers and booleans.

The source does not pin a pydantic version. Pydantic 1 would truncate `10.5`
to `10` and would turn numbers into strings.

Behaviour of the code that the model keeps:

- `title`, `unit` and `seller_name` are plain `str` fields, so an empty string
  is accepted. `ProductMissingRule` and `ProductAccepted` state this.
- With no database, a handler answers status 500 with detail "Database not
  configured".
- The limit is capped from above only. A limit of 0 becomes 50, like an
  absent one. A negative limit is passed to the store unchanged.
- Only `created_at` and `updated_at` are rendered as text, and only when
  they hold date-time values.
- The request body is validated before the handler body runs. A create
  request with an invalid body therefore gets 422, even when no database is
  configured. The 500 applies to valid bodies only.

## Model

| member | source | states |
|---|---|---|
| Schemas.ValidateProduct | schemas.py:11-24 | a listing body is accepted exactly when title, unit and seller_name are strings (empty allowed), price is a number ≥ 0, category is "produce" or "compost", description/image_url/location are null or strings, and in_stock, if sent, is a boolean; an accepted listing has price ≥ 0; a rejected one reports exactly its violations, a non-empty set |
| Schemas.ValidateTutorial | schemas.py:27-37 | a tutorial body is accepted exactly when title and author are strings, the optional text fields are null or strings, and duration_seconds, if sent and not null, is a whole number ≥ 0; a rejection reports exactly its violations, a non-empty set |
| Schemas.ValidateMessage | schemas.py:40-47 | a message body is accepted exactly when name is a string, text is a string of 1 to 1000 characters, and room, if sent, is a string; a rejection reports exactly its violations, a non-empty set |
| Schemas.ProductKeepsSentValues | schemas.py:16-24 | an accepted listing holds every field exactly as sent; a field not sent takes its default: in_stock true, description, image_url and location null |
| Schemas.TutorialKeepsSentValues | schemas.py:32-37 | an accepted tutorial holds every field as sent; optional fields not sent, duration_seconds included, are null |
| Schemas.MessageKeepsSentValues | schemas.py:45-47 | an accepted message holds name, text and room as sent; room is "general" when not sent |
| Schemas.ProductPriceRule | schemas.py:18 | a listing is rejected with a below-minimum violation on price exactly when the price sent is a negative number |
| Schemas.ProductCategoryRule | schemas.py:20 | a listing is rejected with a not-allowed violation on category exactly when a category was sent that is not "produce" or "compost" |
| Schemas.ProductMissingRule | schemas.py:16-21 | a listing is reported as missing field f exactly when f is one of title, price, unit, category, seller_name and was not sent |
| Schemas.TutorialDurationRule | schemas.py:37 | a tutorial is rejected with a below-minimum violation on duration_seconds exactly when a negative whole number was sent |
| Schemas.TutorialMissingRule | schemas.py:32-34 | a tutorial is reported as missing field f exactly when f is title or author and was not sent |
| Schemas.MessageTooShortRule | schemas.py:46 | a message is rejected as too short exactly when its text is the empty string |
| Schemas.MessageTooLongRule | schemas.py:46 | a message is rejected as too long exactly when its text has more than 1000 characters |
| Schemas.MessageMissingRule | schemas.py:45-46 | a message is reported as missing field f exactly when f is name or text and was not sent |
| Schemas.MessageLengthBoundaries | schemas.py:46 | text of 1 and of 1000 characters is accepted; empty text and text of 1001 characters are rejected |
| Schemas.MessageRoomDefault | schemas.py:47 | an accepted message's room is "general" when none was sent, and otherwise exactly the room sent, the empty string included |
| Schemas.ProductDefaults | schemas.py:17-24 | an accepted listing is in stock and has no description, image or location unless the body supplies them |
| Schemas.ProductRoundTrip | schemas.py:11-24 | a listing with price ≥ 0, written as a document, validates back to the same listing |
| Schemas.TutorialRoundTrip | schemas.py:27-37 | a tutorial with a non-negative or absent duration, written as a document, validates back to itself |
| Schemas.MessageRoundTrip | schemas.py:40-47 | a message with 1 to 1000 characters of text, written as a document, validates back to itself |
| Schemas.ProductIgnoresOtherKeys | schemas.py:11-24 | two bodies that agree on the listing's nine fields validate identically, whatever else they hold |
| Schemas.TutorialIgnoresOtherKeys | schemas.py:27-37 | two bodies that agree on the tutorial's six fields validate identically |
| Schemas.MessageIgnoresOtherKeys | schemas.py:40-47 | two bodies that agree on name, text and room validate identically |
| Schemas.ViolationsEmpty | schemas.py:11-47 | a body has no violations exactly when every field of its schema passes its rule |
| Schemas.ViolationFields | schemas.py:11-47 | every reported violation names a field declared in the schema |
| Schemas.ViolationAt | schemas.py:11-47 | when field names are distinct, a field is reported with a rule exactly when its value breaks that rule |
| Schemas.MissingRule | schemas.py:11-47 | a field is reported missing exactly when it has no default and was not sent |
| Schemas.CheckMissing | schemas.py:11-47 | a single field's check reports "missing" exactly when no value was sent and the declaration has no default |
| Schemas.OnlySchemaFieldsMatter | schemas.py:11-47 | conformance and the violation set depend only on the entries under the schema's own field names |
| Serialization.SerializeDoc | main.py:27-35 | a non-null `_id` is removed and `id` holds its string form; an absent or null `_id` and any `id` are left as they were; the key set is the input's with `_id` replaced by `id` only when renamed; every other key except the two timestamps keeps its value; `created_at`/`updated_at` become ISO text exactly when they hold date-times |
| Serialization.SerializedFixedPoint | main.py:29-34 | the output has no non-null `_id` and no date-time timestamps, and a document in that state is returned unchanged |
| Serialization.SerializeIdempotent | main.py:27-35 | serialising a document twice gives the same result as serialising it once |
| Serialization.DistinctIdsStayDistinct | main.py:29-30 | if `str` gives different ObjectIds different texts, as Python's `str` on ObjectIds does, then documents whose `_id`s are different ObjectIds get different `id`s |
| Serialization.SerializeAll | main.py:88 | the listed documents are the found documents, each serialised, in the store's order |
| Serialization.SerializeAllIdempotent | main.py:88 | serialising a listing twice gives the same result as serialising it once |
| Handlers.EffectiveLimit | main.py:84-122 | the limit passed to the store never exceeds the cap (100 for products and tutorials, 200 for messages); an absent or zero limit becomes 50; a limit between 1 and the cap is kept; a larger one becomes the cap; a negative one passes through unchanged |
| Handlers.RoomFilter | main.py:121 | the filter is empty for an empty room and exactly {room: R} otherwise, so a document matches it exactly when the room is empty or the document's room is R |
| Handlers.CreateProduct | main.py:75-80 | an invalid body is answered with 422 carrying exactly the body's violations (never an empty set), with no storage call; a valid body with no database gets 500 "Database not configured", with no storage call; otherwise the validated listing is inserted into "product" once and the new id returned |
| Handlers.CreateTutorial | main.py:92-97 | as for products, with the validated tutorial inserted into "tutorial" |
| Handlers.CreateMessage | main.py:109-114 | as for products, with the validated message inserted into "message" |
| Handlers.ListProducts | main.py:83-88 | no database: 500 and no storage call; otherwise exactly one find on "product" with an empty filter and the effective limit (at most 100), and the result is the found documents serialised |
| Handlers.ListTutorials | main.py:100-105 | as for products, on "tutorial" |
| Handlers.ListMessages | main.py:117-123 | no database: 500 and no storage call; otherwise exactly one find on "message" with the room filter for the given room (default "general") and the effective limit (at most 200), and the result is the found documents serialised |
| Handlers.NotConfiguredEverywhere | main.py:76-120 | with no database every list handler, and every create handler given a valid body, returns 500 "Database not configured" and makes no storage call |
| Handlers.ListSizesBounded | main.py:87-122 | if the store returns at most n documents when asked for n > 0, an absent or non-negative limit yields at most 100 products, 100 tutorials and 200 messages |
| Handlers.ListedMessagesInRoom | main.py:117-123 | if the store returns only documents matching the filter, every message listed for a non-empty room has that room |
| Handlers.ListedKeepsFields | main.py:27-35 | a stored record listed back has every schema field unchanged, since no schema field is `_id`, `id` or a timestamp |
| Handlers.ProductCreateThenList | main.py:75-88 | a stored listing, once listed, has no `_id`, has `id` equal to the string form of its ObjectId, and validates back to the listing submitted |
| Handlers.TutorialCreateThenList | main.py:92-105 | the same for a tutorial |
| Handlers.MessageCreateThenList | main.py:109-123 | the same for a message |

## Left out

- The storage helper module (`db`, `create_document`, `get_documents`) is not part of this model. It enters as the `Storage` parameter. What it does is stated only as hypotheses of lemmas: `HonoursLimit`, `HonoursFilter`, and `Persisted`, the record plus a generated `_id` and both timestamps.
- The storage helper is assumed to write an optional field that was not sent as null, as a model dump does, so it lists back as null rather than as an absent key. Its code is not part of this model, and `Persisted` records this assumption.
- Handlers.ListProducts: records an explicit empty filter where the source passes none. This assumes the storage helper's default filter matches every document.
- Handlers.ListTutorials: records an explicit empty filter where the source passes none, on the same assumption.
- Storage failures at run time (a write or query that raises) are not modelled: `Storage`'s functions are total. The source turns such failures into a generic 500 without handling them.
- The `/test` diagnostic endpoint and `GET /` are not modelled: they read the environment and inspect the live database, with nothing stable to prove.
- Routing, CORS middleware, `response_model` coercion and the uvicorn start-up are framework plumbing and are not modelled. Parsing of the `limit` query parameter is left out too: a non-integer limit gets 422 from the framework before a handler runs.
- `HttpUrl` parsing is pydantic library code. URL fields are read as opaque optional strings.
- Schemas.ProductRoundTrip: treats `image_url` as opaque text, so it does not capture the URL normalisation pydantic applies.
- Schemas.TutorialRoundTrip: treats `video_url` and `thumbnail_url` as opaque text, for the same reason.
- Pydantic's lax coercions are not modelled. These include numeric strings to numbers, `0`/`1` or `"true"`/`"false"` to booleans, and booleans to numbers. In the model a value of the wrong JSON kind is a type violation.
- `price` is a `real`. Floating-point rounding, NaN and infinity are not modelled; only the `≥ 0` comparison matters.
- The text produced by `str(ObjectId)` and `isoformat()` is not modelled: it is the uninterpreted `Formatter`.
- The wording of pydantic's error messages and the order in which errors are collected are not modelled. A rejection is a set of (field, rule) pairs.
- Handlers.ListSizesBounded: says nothing about a negative limit. The store receives it unchanged, and its meaning there belongs to the storage helper.
- `serialize_doc` works on a copy of its input. This holds by construction here, since documents are immutable values, so there is no separate statement of it.
