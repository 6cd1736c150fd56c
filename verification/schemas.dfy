/**
 * The three record kinds of the marketplace (schemas.py) and the field-level
 * validation pydantic performs on a request body before a handler sees it.
 *
 * A body is a `Doc`; a field the client did not send is a key missing from
 * it. Each record kind is described by a `Schema`, one `FieldSpec` per
 * declared field, and validation checks every field on its own: the result is
 * either a well-formed record with defaults filled in, or the set of
 * violations, at most one per field. Keys the schema does not name are
 * ignored.
 */
module Schemas {
  import opened Wrappers
  import opened Values

  // ---------------------------------------------------------------------------
  // Field declarations and the rule each one checks
  // ---------------------------------------------------------------------------

  /** The rule a field broke. */
  datatype Rule =
    | Missing      // a required field was not sent
    | WrongType    // the value is not of the field's type (null included, unless the field is Optional)
    | BelowMinimum // a number under the field's lower bound of 0
    | NotAllowed   // a value outside the field's fixed set of choices
    | TooShort     // a string shorter than the field's minimum length
    | TooLong      // a string longer than the field's maximum length

  datatype Violation = Violation(field: string, rule: Rule)

  type Violations = set<Violation>

  /** The kinds of field declaration that occur in the three schemas. */
  datatype FieldKind =
    | Text                            // a required string
    | OptionalText                    // an optional string, null by default; URL fields are read as opaque text
    | TextOr(text: string)            // a string defaulting to `text`
    | BoolOr(flag: bool)              // a boolean defaulting to `flag`
    | NonNegativeReal                 // a required non-negative number
    | OptionalNonNegativeInt          // an optional non-negative whole number, null by default
    | OneOf(choices: set<string>)     // a required string from a fixed set
    | BoundedText(min: nat, max: nat) // a required string of min to max characters

  datatype FieldSpec = FieldSpec(name: string, kind: FieldKind)

  type Schema = seq<FieldSpec>

  /** A number pydantic accepts for an `int` field: one without a fractional part. */
  predicate IsWhole(x: real) {
    x.Floor as real == x
  }

  /** The value a field takes when it is not sent; `None` for a required field. */
  function Default(kind: FieldKind): Option<Value> {
    match kind
    case OptionalText => Some(Null)
    case TextOr(t) => Some(Str(t))
    case BoolOr(b) => Some(Bool(b))
    case OptionalNonNegativeInt => Some(Null)
    case _ => None
  }

  /** The rule a field's sent value (`None`: not sent) breaks, if any. */
  function Check(sent: Option<Value>, kind: FieldKind): Option<Rule> {
    match sent
    case None => if Default(kind).Some? then None else Some(Missing)
    case Some(v) =>
      match kind
      case Text => if v.Str? then None else Some(WrongType)
      case OptionalText => if v.Null? || v.Str? then None else Some(WrongType)
      case TextOr(_) => if v.Str? then None else Some(WrongType)
      case BoolOr(_) => if v.Bool? then None else Some(WrongType)
      case NonNegativeReal =>
        if !v.Num? then Some(WrongType)
        else if v.x < 0.0 then Some(BelowMinimum)
        else None
      case OptionalNonNegativeInt =>
        if v.Null? then None
        else if !v.Num? || !IsWhole(v.x) then Some(WrongType)
        else if v.x < 0.0 then Some(BelowMinimum)
        else None
      case OneOf(choices) => if v.Str? && v.s in choices then None else Some(NotAllowed)
      case BoundedText(lo, hi) =>
        if !v.Str? then Some(WrongType)
        else if |v.s| < lo then Some(TooShort)
        else if |v.s| > hi then Some(TooLong)
        else None
  }

  /** What an accepted record holds under a field: the value sent, else the default. */
  function Stored(sent: Option<Value>, kind: FieldKind): Option<Value> {
    match sent
    case Some(v) => Some(v)
    case None => Default(kind)
  }

  // ---------------------------------------------------------------------------
  // A schema applied to a body
  // ---------------------------------------------------------------------------

  /** The rule the `i`-th field of `schema` breaks in `raw`, if any. */
  function CheckAt(raw: Doc, schema: Schema, i: nat): Option<Rule>
    requires i < |schema|
  {
    Check(Lookup(raw, schema[i].name), schema[i].kind)
  }

  /** Every field of the schema is acceptable. */
  predicate Conforms(raw: Doc, schema: Schema) {
    forall i: nat :: i < |schema| ==> CheckAt(raw, schema, i).None?
  }

  /** One violation per field that breaks its rule. */
  function ViolationsOf(raw: Doc, schema: Schema): Violations {
    set i: nat | i < |schema| && CheckAt(raw, schema, i).Some? :: Violation(schema[i].name, CheckAt(raw, schema, i).value)
  }

  function Names(schema: Schema): set<string> {
    set i: nat | i < |schema| :: schema[i].name
  }

  predicate DistinctNames(schema: Schema) {
    forall i: nat, j: nat :: i < j < |schema| ==> schema[i].name != schema[j].name
  }

  /** `doc` holds, under every field of the schema, what an accepted `raw` stores there. */
  predicate HoldsStored(doc: Doc, raw: Doc, schema: Schema) {
    forall i: nat :: i < |schema| ==> Lookup(doc, schema[i].name) == Stored(Lookup(raw, schema[i].name), schema[i].kind)
  }

  /** A field is reported missing exactly when it was not sent and has no default. */
  lemma CheckMissing(sent: Option<Value>, kind: FieldKind)
    ensures Check(sent, kind) == Some(Missing) <==> sent.None? && Default(kind).None?
  {
  }

  /** A body has no violations exactly when it conforms. */
  lemma ViolationsEmpty(raw: Doc, schema: Schema)
    ensures ViolationsOf(raw, schema) == {} <==> Conforms(raw, schema)
  {
    if !Conforms(raw, schema) {
      var i: nat :| i < |schema| && CheckAt(raw, schema, i).Some?;
      assert Violation(schema[i].name, CheckAt(raw, schema, i).value) in ViolationsOf(raw, schema);
    }
  }

  /** Every violation names a field of the schema. */
  lemma ViolationFields(raw: Doc, schema: Schema)
    ensures forall v :: v in ViolationsOf(raw, schema) ==> v.field in Names(schema)
  {
    forall v | v in ViolationsOf(raw, schema)
      ensures v.field in Names(schema)
    {
      var i: nat :| i < |schema| && CheckAt(raw, schema, i).Some? && v == Violation(schema[i].name, CheckAt(raw, schema, i).value);
      assert schema[i].name in Names(schema);
    }
  }

  /** With distinct field names, the violation reported for a field is exactly the rule its value breaks. */
  lemma ViolationAt(raw: Doc, schema: Schema, i: nat, rule: Rule)
    requires DistinctNames(schema) && i < |schema|
    ensures Violation(schema[i].name, rule) in ViolationsOf(raw, schema) <==> CheckAt(raw, schema, i) == Some(rule)
  {
    if CheckAt(raw, schema, i) == Some(rule) {
      assert Violation(schema[i].name, rule) in ViolationsOf(raw, schema);
    }
    if Violation(schema[i].name, rule) in ViolationsOf(raw, schema) {
      var j: nat :| j < |schema| && CheckAt(raw, schema, j).Some?
                    && Violation(schema[i].name, rule) == Violation(schema[j].name, CheckAt(raw, schema, j).value);
      assert i == j;
    }
  }

  /** The fields that have no default. */
  function RequiredNames(schema: Schema): set<string> {
    set i: nat | i < |schema| && Default(schema[i].kind).None? :: schema[i].name
  }

  /** A field is reported missing exactly when it is required and was not sent. */
  lemma MissingRule(raw: Doc, schema: Schema, f: string)
    ensures Violation(f, Missing) in ViolationsOf(raw, schema) <==> f in RequiredNames(schema) && f !in raw
  {
    if Violation(f, Missing) in ViolationsOf(raw, schema) {
      var i: nat :| i < |schema| && CheckAt(raw, schema, i).Some?
                    && Violation(f, Missing) == Violation(schema[i].name, CheckAt(raw, schema, i).value);
      CheckMissing(Lookup(raw, f), schema[i].kind);
      assert f in RequiredNames(schema);
    }
    if f in RequiredNames(schema) && f !in raw {
      var i: nat :| i < |schema| && Default(schema[i].kind).None? && schema[i].name == f;
      CheckMissing(Lookup(raw, f), schema[i].kind);
      assert Violation(schema[i].name, CheckAt(raw, schema, i).value) in ViolationsOf(raw, schema);
    }
  }

  /** `raw` and `raw'` have the same entries under every field the schema declares. */
  predicate SameFields(raw: Doc, raw': Doc, schema: Schema) {
    forall i: nat :: i < |schema| ==> Lookup(raw, schema[i].name) == Lookup(raw', schema[i].name)
  }

  /** The outcome depends only on the schema's own fields: any other key is ignored. */
  lemma OnlySchemaFieldsMatter(raw: Doc, raw': Doc, schema: Schema)
    requires SameFields(raw, raw', schema)
    ensures Conforms(raw, schema) <==> Conforms(raw', schema)
    ensures ViolationsOf(raw, schema) == ViolationsOf(raw', schema)
  {
    assert forall i: nat :: i < |schema| ==> CheckAt(raw, schema, i) == CheckAt(raw', schema, i);
  }

  // ---------------------------------------------------------------------------
  // Records
  // ---------------------------------------------------------------------------

  datatype Category = Produce | Compost

  function CategoryName(c: Category): string {
    match c
    case Produce => "produce"
    case Compost => "compost"
  }

  /** A marketplace listing (collection "product"). */
  datatype Product = Product(
    title: string,
    description: Option<string>,
    price: real,
    unit: string,
    category: Category,
    seller_name: string,
    image_url: Option<string>,
    location: Option<string>,
    in_stock: bool)
  {
    predicate Valid() {
      price >= 0.0
    }
  }

  /** A tutorial video or guide (collection "tutorial"). */
  datatype Tutorial = Tutorial(
    title: string,
    description: Option<string>,
    author: string,
    video_url: Option<string>,
    thumbnail_url: Option<string>,
    duration_seconds: Option<int>)
  {
    predicate Valid() {
      duration_seconds.Some? ==> duration_seconds.value >= 0
    }
  }

  const MinTextLength: nat := 1
  const MaxTextLength: nat := 1000
  const DefaultRoom := "general"

  /** A community chat message (collection "message"). */
  datatype Message = Message(name: string, text: string, room: string)
  {
    predicate Valid() {
      MinTextLength <= |text| <= MaxTextLength
    }
  }

  const ProductSchema: Schema := [
    FieldSpec("title", Text),
    FieldSpec("description", OptionalText),
    FieldSpec("price", NonNegativeReal),
    FieldSpec("unit", Text),
    FieldSpec("category", OneOf({"produce", "compost"})),
    FieldSpec("seller_name", Text),
    FieldSpec("image_url", OptionalText),
    FieldSpec("location", OptionalText),
    FieldSpec("in_stock", BoolOr(true))]

  const TutorialSchema: Schema := [
    FieldSpec("title", Text),
    FieldSpec("description", OptionalText),
    FieldSpec("author", Text),
    FieldSpec("video_url", OptionalText),
    FieldSpec("thumbnail_url", OptionalText),
    FieldSpec("duration_seconds", OptionalNonNegativeInt)]

  const MessageSchema: Schema := [
    FieldSpec("name", Text),
    FieldSpec("text", BoundedText(MinTextLength, MaxTextLength)),
    FieldSpec("room", TextOr(DefaultRoom))]

  // ---------------------------------------------------------------------------
  // Records written as documents (what a model dump produces)
  // ---------------------------------------------------------------------------

  function OptionalWhole(n: Option<int>): Value {
    match n
    case Some(k) => Num(k as real)
    case None => Null
  }

  function ProductDoc(p: Product): Doc {
    map[
      "title" := Str(p.title),
      "description" := Nullable(p.description),
      "price" := Num(p.price),
      "unit" := Str(p.unit),
      "category" := Str(CategoryName(p.category)),
      "seller_name" := Str(p.seller_name),
      "image_url" := Nullable(p.image_url),
      "location" := Nullable(p.location),
      "in_stock" := Bool(p.in_stock)]
  }

  /** Where each field of a listing sits in its document. */
  lemma ProductDocFields(p: Product)
    ensures Lookup(ProductDoc(p), "title") == Some(Str(p.title))
    ensures Lookup(ProductDoc(p), "description") == Some(Nullable(p.description))
    ensures Lookup(ProductDoc(p), "price") == Some(Num(p.price))
    ensures Lookup(ProductDoc(p), "unit") == Some(Str(p.unit))
    ensures Lookup(ProductDoc(p), "category") == Some(Str(CategoryName(p.category)))
    ensures Lookup(ProductDoc(p), "seller_name") == Some(Str(p.seller_name))
    ensures Lookup(ProductDoc(p), "image_url") == Some(Nullable(p.image_url))
    ensures Lookup(ProductDoc(p), "location") == Some(Nullable(p.location))
    ensures Lookup(ProductDoc(p), "in_stock") == Some(Bool(p.in_stock))
  {}

  function TutorialDoc(t: Tutorial): Doc {
    map[
      "title" := Str(t.title),
      "description" := Nullable(t.description),
      "author" := Str(t.author),
      "video_url" := Nullable(t.video_url),
      "thumbnail_url" := Nullable(t.thumbnail_url),
      "duration_seconds" := OptionalWhole(t.duration_seconds)]
  }

  function MessageDoc(m: Message): Doc {
    map["name" := Str(m.name), "text" := Str(m.text), "room" := Str(m.room)]
  }

  // ---------------------------------------------------------------------------
  // Field-level acceptance, stated rule by rule
  // ---------------------------------------------------------------------------

  /** A required `str` field: sent, and a string (possibly empty). */
  predicate HasText(raw: Doc, f: string) {
    f in raw && raw[f].Str?
  }

  /** An `Optional[str]` field: not sent, null, or a string. */
  predicate MaybeText(raw: Doc, f: string) {
    f !in raw || raw[f].Null? || raw[f].Str?
  }

  predicate ProductAccepted(raw: Doc) {
    && HasText(raw, "title")
    && MaybeText(raw, "description")
    && "price" in raw && raw["price"].Num? && raw["price"].x >= 0.0
    && HasText(raw, "unit")
    && "category" in raw && raw["category"] in {Str("produce"), Str("compost")}
    && HasText(raw, "seller_name")
    && MaybeText(raw, "image_url")
    && MaybeText(raw, "location")
    && ("in_stock" in raw ==> raw["in_stock"].Bool?)
  }

  predicate TutorialAccepted(raw: Doc) {
    && HasText(raw, "title")
    && MaybeText(raw, "description")
    && HasText(raw, "author")
    && MaybeText(raw, "video_url")
    && MaybeText(raw, "thumbnail_url")
    && ("duration_seconds" in raw && !raw["duration_seconds"].Null? ==>
          raw["duration_seconds"].Num? && IsWhole(raw["duration_seconds"].x) && raw["duration_seconds"].x >= 0.0)
  }

  predicate MessageAccepted(raw: Doc) {
    && HasText(raw, "name")
    && HasText(raw, "text") && MinTextLength <= |raw["text"].s| <= MaxTextLength
    && ("room" in raw ==> raw["room"].Str?)
  }

  // ---------------------------------------------------------------------------
  // Validation
  // ---------------------------------------------------------------------------

  function TextOf(raw: Doc, f: string): Option<string> {
    if f in raw && raw[f].Str? then Some(raw[f].s) else None
  }

  function ValidateProduct(raw: Doc): (r: Result<Product, Violations>)
    ensures r.Success? <==> ProductAccepted(raw)
    ensures r.Success? ==> r.value.Valid()
    ensures r.Failure? ==> r.error == ViolationsOf(raw, ProductSchema) && r.error != {}
  {
    ViolationsEmpty(raw, ProductSchema);
    if Conforms(raw, ProductSchema) then
      assert ProductAccepted(raw) by {
        assert CheckAt(raw, ProductSchema, 0).None? && CheckAt(raw, ProductSchema, 1).None?;
        assert CheckAt(raw, ProductSchema, 2).None? && CheckAt(raw, ProductSchema, 3).None?;
        assert CheckAt(raw, ProductSchema, 4).None? && CheckAt(raw, ProductSchema, 5).None?;
        assert CheckAt(raw, ProductSchema, 6).None? && CheckAt(raw, ProductSchema, 7).None?;
        assert CheckAt(raw, ProductSchema, 8).None?;
      }
      Success(Product(
        raw["title"].s, TextOf(raw, "description"), raw["price"].x, raw["unit"].s,
        if raw["category"] == Str("produce") then Produce else Compost,
        raw["seller_name"].s, TextOf(raw, "image_url"), TextOf(raw, "location"),
        if "in_stock" in raw then raw["in_stock"].b else true))
    else
      Failure(ViolationsOf(raw, ProductSchema))
  }

  function ValidateTutorial(raw: Doc): (r: Result<Tutorial, Violations>)
    ensures r.Success? <==> TutorialAccepted(raw)
    ensures r.Success? ==> r.value.Valid()
    ensures r.Failure? ==> r.error == ViolationsOf(raw, TutorialSchema) && r.error != {}
  {
    ViolationsEmpty(raw, TutorialSchema);
    if Conforms(raw, TutorialSchema) then
      assert TutorialAccepted(raw) by {
        assert CheckAt(raw, TutorialSchema, 0).None? && CheckAt(raw, TutorialSchema, 1).None?;
        assert CheckAt(raw, TutorialSchema, 2).None? && CheckAt(raw, TutorialSchema, 3).None?;
        assert CheckAt(raw, TutorialSchema, 4).None? && CheckAt(raw, TutorialSchema, 5).None?;
      }
      var d := Lookup(raw, "duration_seconds");
      Success(Tutorial(
        raw["title"].s, TextOf(raw, "description"), raw["author"].s,
        TextOf(raw, "video_url"), TextOf(raw, "thumbnail_url"),
        if d.Some? && d.value.Num? then Some(d.value.x.Floor) else None))
    else
      Failure(ViolationsOf(raw, TutorialSchema))
  }

  function ValidateMessage(raw: Doc): (r: Result<Message, Violations>)
    ensures r.Success? <==> MessageAccepted(raw)
    ensures r.Success? ==> r.value.Valid()
    ensures r.Failure? ==> r.error == ViolationsOf(raw, MessageSchema) && r.error != {}
  {
    ViolationsEmpty(raw, MessageSchema);
    if Conforms(raw, MessageSchema) then
      assert MessageAccepted(raw) by {
        assert CheckAt(raw, MessageSchema, 0).None? && CheckAt(raw, MessageSchema, 1).None?;
        assert CheckAt(raw, MessageSchema, 2).None?;
      }
      Success(Message(raw["name"].s, raw["text"].s, if "room" in raw then raw["room"].s else DefaultRoom))
    else
      Failure(ViolationsOf(raw, MessageSchema))
  }

  // ---------------------------------------------------------------------------
  // What an accepted record holds
  // ---------------------------------------------------------------------------

  /** An accepted listing holds each field as sent, or its default (`in_stock = true`, optional fields null). */
  lemma ProductKeepsSentValues(raw: Doc)
    requires ValidateProduct(raw).Success?
    ensures HoldsStored(ProductDoc(ValidateProduct(raw).value), raw, ProductSchema)
  {
    var doc := ProductDoc(ValidateProduct(raw).value);
    ProductDocFields(ValidateProduct(raw).value);
    assert Conforms(raw, ProductSchema) by { ViolationsEmpty(raw, ProductSchema); }
    forall i: nat | i < |ProductSchema|
      ensures Lookup(doc, ProductSchema[i].name) == Stored(Lookup(raw, ProductSchema[i].name), ProductSchema[i].kind)
    {
      assert CheckAt(raw, ProductSchema, i).None?;
    }
  }

  /** An accepted tutorial holds each field as sent, or null when not sent. */
  lemma TutorialKeepsSentValues(raw: Doc)
    requires ValidateTutorial(raw).Success?
    ensures HoldsStored(TutorialDoc(ValidateTutorial(raw).value), raw, TutorialSchema)
  {
    var doc := TutorialDoc(ValidateTutorial(raw).value);
    assert Conforms(raw, TutorialSchema) by { ViolationsEmpty(raw, TutorialSchema); }
    forall i: nat | i < |TutorialSchema|
      ensures Lookup(doc, TutorialSchema[i].name) == Stored(Lookup(raw, TutorialSchema[i].name), TutorialSchema[i].kind)
    {
      assert CheckAt(raw, TutorialSchema, i).None?;
    }
  }

  /** An accepted message holds each field as sent; the room is "general" only when not sent. */
  lemma MessageKeepsSentValues(raw: Doc)
    requires ValidateMessage(raw).Success?
    ensures HoldsStored(MessageDoc(ValidateMessage(raw).value), raw, MessageSchema)
  {
    var doc := MessageDoc(ValidateMessage(raw).value);
    assert Conforms(raw, MessageSchema) by { ViolationsEmpty(raw, MessageSchema); }
    forall i: nat | i < |MessageSchema|
      ensures Lookup(doc, MessageSchema[i].name) == Stored(Lookup(raw, MessageSchema[i].name), MessageSchema[i].kind)
    {
      assert CheckAt(raw, MessageSchema, i).None?;
    }
  }

  // ---------------------------------------------------------------------------
  // Which violations a rejected body reports
  // ---------------------------------------------------------------------------

  lemma ProductNamesDistinct()
    ensures DistinctNames(ProductSchema)
  {
  }

  lemma TutorialNamesDistinct()
    ensures DistinctNames(TutorialSchema)
  {
  }

  lemma MessageNamesDistinct()
    ensures DistinctNames(MessageSchema)
  {
  }

  lemma ProductRequiredNames()
    ensures RequiredNames(ProductSchema) == {"title", "price", "unit", "category", "seller_name"}
  {
    var r := RequiredNames(ProductSchema);
    assert ProductSchema[0].name in r;
    assert ProductSchema[2].name in r;
    assert ProductSchema[3].name in r;
    assert ProductSchema[4].name in r;
    assert ProductSchema[5].name in r;
    forall f | f in r
      ensures f in {"title", "price", "unit", "category", "seller_name"}
    {
      var i: nat :| i < 9 && Default(ProductSchema[i].kind).None? && ProductSchema[i].name == f;
      assert i in {0, 2, 3, 4, 5};
    }
  }

  lemma TutorialRequiredNames()
    ensures RequiredNames(TutorialSchema) == {"title", "author"}
  {
    var r := RequiredNames(TutorialSchema);
    assert TutorialSchema[0].name in r;
    assert TutorialSchema[2].name in r;
    forall f | f in r
      ensures f in {"title", "author"}
    {
      var i: nat :| i < 6 && Default(TutorialSchema[i].kind).None? && TutorialSchema[i].name == f;
      assert i in {0, 2};
    }
  }

  lemma MessageRequiredNames()
    ensures RequiredNames(MessageSchema) == {"name", "text"}
  {
    var r := RequiredNames(MessageSchema);
    assert MessageSchema[0].name in r;
    assert MessageSchema[1].name in r;
    forall f | f in r
      ensures f in {"name", "text"}
    {
      var i: nat :| i < 3 && Default(MessageSchema[i].kind).None? && MessageSchema[i].name == f;
      assert i in {0, 1};
    }
  }

  /** A listing is rejected for its price being below zero exactly when a negative number was sent. */
  lemma ProductPriceRule(raw: Doc)
    ensures (ValidateProduct(raw).Failure? && Violation("price", BelowMinimum) in ValidateProduct(raw).error)
            <==> "price" in raw && raw["price"].Num? && raw["price"].x < 0.0
  {
    ProductNamesDistinct();
    ViolationAt(raw, ProductSchema, 2, BelowMinimum);
  }

  /** A listing is rejected for its category exactly when one was sent that is not "produce" or "compost". */
  lemma ProductCategoryRule(raw: Doc)
    ensures (ValidateProduct(raw).Failure? && Violation("category", NotAllowed) in ValidateProduct(raw).error)
            <==> "category" in raw && raw["category"] !in {Str("produce"), Str("compost")}
  {
    ProductNamesDistinct();
    ViolationAt(raw, ProductSchema, 4, NotAllowed);
  }

  /**
   * A listing is reported as missing a field exactly when that field is one
   * of the five required ones and was not sent; a sent empty string counts as
   * sent.
   */
  lemma ProductMissingRule(raw: Doc, f: string)
    ensures (ValidateProduct(raw).Failure? && Violation(f, Missing) in ValidateProduct(raw).error)
            <==> f in {"title", "price", "unit", "category", "seller_name"} && f !in raw
  {
    MissingRule(raw, ProductSchema, f);
    ProductRequiredNames();
  }

  /** A tutorial is rejected for its duration exactly when a negative whole number was sent. */
  lemma TutorialDurationRule(raw: Doc)
    ensures (ValidateTutorial(raw).Failure? && Violation("duration_seconds", BelowMinimum) in ValidateTutorial(raw).error)
            <==> && "duration_seconds" in raw && raw["duration_seconds"].Num?
                 && IsWhole(raw["duration_seconds"].x) && raw["duration_seconds"].x < 0.0
  {
    TutorialNamesDistinct();
    ViolationAt(raw, TutorialSchema, 5, BelowMinimum);
  }

  /** A tutorial is reported as missing a field exactly when it is the title or the author and was not sent. */
  lemma TutorialMissingRule(raw: Doc, f: string)
    ensures (ValidateTutorial(raw).Failure? && Violation(f, Missing) in ValidateTutorial(raw).error)
            <==> f in {"title", "author"} && f !in raw
  {
    MissingRule(raw, TutorialSchema, f);
    TutorialRequiredNames();
  }

  /** A message is rejected for its text being too short exactly when an empty string was sent. */
  lemma MessageTooShortRule(raw: Doc)
    ensures (ValidateMessage(raw).Failure? && Violation("text", TooShort) in ValidateMessage(raw).error)
            <==> "text" in raw && raw["text"] == Str("")
  {
    MessageNamesDistinct();
    ViolationAt(raw, MessageSchema, 1, TooShort);
  }

  /** A message is rejected for its text being too long exactly when a string over 1000 characters was sent. */
  lemma MessageTooLongRule(raw: Doc)
    ensures (ValidateMessage(raw).Failure? && Violation("text", TooLong) in ValidateMessage(raw).error)
            <==> "text" in raw && raw["text"].Str? && |raw["text"].s| > 1000
  {
    MessageNamesDistinct();
    ViolationAt(raw, MessageSchema, 1, TooLong);
  }

  /** A message is reported as missing a field exactly when it is the name or the text and was not sent. */
  lemma MessageMissingRule(raw: Doc, f: string)
    ensures (ValidateMessage(raw).Failure? && Violation(f, Missing) in ValidateMessage(raw).error)
            <==> f in {"name", "text"} && f !in raw
  {
    MissingRule(raw, MessageSchema, f);
    MessageRequiredNames();
  }

  // ---------------------------------------------------------------------------
  // Round trips and independence from other keys
  // ---------------------------------------------------------------------------

  /** A well-formed listing, written as a document, validates back to itself. */
  lemma ProductRoundTrip(p: Product)
    requires p.Valid()
    ensures ValidateProduct(ProductDoc(p)) == Success(p)
  {
    ProductDocFields(p);
  }

  lemma TutorialRoundTrip(t: Tutorial)
    requires t.Valid()
    ensures ValidateTutorial(TutorialDoc(t)) == Success(t)
  {
  }

  lemma MessageRoundTrip(m: Message)
    requires m.Valid()
    ensures ValidateMessage(MessageDoc(m)) == Success(m)
  {
  }

  /** Validating a listing looks at nothing but the listing's own fields. */
  lemma ProductIgnoresOtherKeys(raw: Doc, raw': Doc)
    requires SameFields(raw, raw', ProductSchema)
    ensures ValidateProduct(raw) == ValidateProduct(raw')
  {
    OnlySchemaFieldsMatter(raw, raw', ProductSchema);
    assert Lookup(raw, "title") == Lookup(raw', "title") by { assert ProductSchema[0].name == "title"; }
    assert Lookup(raw, "description") == Lookup(raw', "description") by { assert ProductSchema[1].name == "description"; }
    assert Lookup(raw, "price") == Lookup(raw', "price") by { assert ProductSchema[2].name == "price"; }
    assert Lookup(raw, "unit") == Lookup(raw', "unit") by { assert ProductSchema[3].name == "unit"; }
    assert Lookup(raw, "category") == Lookup(raw', "category") by { assert ProductSchema[4].name == "category"; }
    assert Lookup(raw, "seller_name") == Lookup(raw', "seller_name") by { assert ProductSchema[5].name == "seller_name"; }
    assert Lookup(raw, "image_url") == Lookup(raw', "image_url") by { assert ProductSchema[6].name == "image_url"; }
    assert Lookup(raw, "location") == Lookup(raw', "location") by { assert ProductSchema[7].name == "location"; }
    assert Lookup(raw, "in_stock") == Lookup(raw', "in_stock") by { assert ProductSchema[8].name == "in_stock"; }
  }

  lemma TutorialIgnoresOtherKeys(raw: Doc, raw': Doc)
    requires SameFields(raw, raw', TutorialSchema)
    ensures ValidateTutorial(raw) == ValidateTutorial(raw')
  {
    OnlySchemaFieldsMatter(raw, raw', TutorialSchema);
    assert Lookup(raw, "title") == Lookup(raw', "title") by { assert TutorialSchema[0].name == "title"; }
    assert Lookup(raw, "description") == Lookup(raw', "description") by { assert TutorialSchema[1].name == "description"; }
    assert Lookup(raw, "author") == Lookup(raw', "author") by { assert TutorialSchema[2].name == "author"; }
    assert Lookup(raw, "video_url") == Lookup(raw', "video_url") by { assert TutorialSchema[3].name == "video_url"; }
    assert Lookup(raw, "thumbnail_url") == Lookup(raw', "thumbnail_url") by { assert TutorialSchema[4].name == "thumbnail_url"; }
    assert Lookup(raw, "duration_seconds") == Lookup(raw', "duration_seconds") by { assert TutorialSchema[5].name == "duration_seconds"; }
  }

  lemma MessageIgnoresOtherKeys(raw: Doc, raw': Doc)
    requires SameFields(raw, raw', MessageSchema)
    ensures ValidateMessage(raw) == ValidateMessage(raw')
  {
    OnlySchemaFieldsMatter(raw, raw', MessageSchema);
    assert Lookup(raw, "name") == Lookup(raw', "name") by { assert MessageSchema[0].name == "name"; }
    assert Lookup(raw, "text") == Lookup(raw', "text") by { assert MessageSchema[1].name == "text"; }
    assert Lookup(raw, "room") == Lookup(raw', "room") by { assert MessageSchema[2].name == "room"; }
  }

  // ---------------------------------------------------------------------------
  // Defaults and worked examples
  // ---------------------------------------------------------------------------

  /** An accepted message's room is "general" when none was sent, and otherwise exactly the room sent, "" included. */
  lemma MessageRoomDefault(raw: Doc)
    requires ValidateMessage(raw).Success?
    ensures "room" !in raw ==> ValidateMessage(raw).value.room == DefaultRoom
    ensures "room" in raw ==> raw["room"] == Str(ValidateMessage(raw).value.room)
  {
    MessageKeepsSentValues(raw);
    assert MessageSchema[2].name == "room";
  }

  /** An accepted listing is in stock and has no description, image or location unless the body says otherwise. */
  lemma ProductDefaults(raw: Doc)
    requires ValidateProduct(raw).Success?
    ensures "in_stock" !in raw ==> ValidateProduct(raw).value.in_stock
    ensures "description" !in raw ==> ValidateProduct(raw).value.description.None?
    ensures "image_url" !in raw ==> ValidateProduct(raw).value.image_url.None?
    ensures "location" !in raw ==> ValidateProduct(raw).value.location.None?
  {
  }

  /** Text of 1 and of 1000 characters is accepted; empty text and text of 1001 characters are not. */
  lemma MessageLengthBoundaries(name: string)
    ensures ValidateMessage(map["name" := Str(name), "text" := Str(seq(1, _ => 'a'))]).Success?
    ensures ValidateMessage(map["name" := Str(name), "text" := Str(seq(1000, _ => 'a'))]).Success?
    ensures ValidateMessage(map["name" := Str(name), "text" := Str("")]).Failure?
    ensures ValidateMessage(map["name" := Str(name), "text" := Str(seq(1001, _ => 'a'))]).Failure?
  {
  }
}
