/**
 * The sealed promotion type: a discount carrying an amount, or a
 * buy-one-get-one carrying a description. On the wire the variant is chosen
 * by the `type` property, "discount" or "bogo"; each variant's one field is a
 * required property and must not be null.
 */
module Promotions {
  import opened Wrappers
  import opened JsonValues
  import opened JavaErrors

  datatype Promotion =
    | DiscountPromotion(amount: Option<real>)
    | BuyOneGetOnePromotion(description: Option<string>)

  const DiscountTag: string := "discount"
  const BogoTag: string := "bogo"

  /** The `type` name registered for each variant. */
  function TypeTag(p: Promotion): (tag: string)
    ensures tag == DiscountTag <==> p.DiscountPromotion?
    ensures tag == BogoTag <==> p.BuyOneGetOnePromotion?
  {
    match p
    case DiscountPromotion(_) => DiscountTag
    case BuyOneGetOnePromotion(_) => BogoTag
  }

  /** A promotion as a JSON object: the tag, and the variant's field (`null` when absent). */
  function Encode(p: Promotion): map<string, Json> {
    match p
    case DiscountPromotion(amount) =>
      map["type" := JStr(DiscountTag), "amount" := if amount.Some? then JNum(amount.value) else JNull]
    case BuyOneGetOnePromotion(description) =>
      map["type" := JStr(BogoTag), "description" := if description.Some? then JStr(description.value) else JNull]
  }

  /**
   * Reading a promotion: the tag selects the variant, the variant's required
   * property must be present, and `null` is kept as a null field.
   */
  function Decode(obj: map<string, Json>): (r: Option<Promotion>)
    ensures r.Some? ==> "type" in obj && obj["type"] == JStr(TypeTag(r.value))
  {
    if "type" !in obj || !obj["type"].JStr? then None
    else if obj["type"].s == DiscountTag then
      if "amount" !in obj then None
      else match obj["amount"]
        case JNull => Some(DiscountPromotion(None))
        case JNum(n) => Some(DiscountPromotion(Some(n)))
        case _ => None
    else if obj["type"].s == BogoTag then
      if "description" !in obj then None
      else match obj["description"]
        case JNull => Some(BuyOneGetOnePromotion(None))
        case JStr(text) => Some(BuyOneGetOnePromotion(Some(text)))
        case _ => None
    else None
  }

  /** Reading back what was written gives the same promotion. */
  lemma DecodeEncode(p: Promotion)
    ensures Decode(Encode(p)) == Some(p)
  {
    assert DiscountTag != BogoTag by {
      assert DiscountTag[0] != BogoTag[0];
    }
  }

  /** The type is sealed: a tag other than "discount" and "bogo" has no representation. */
  lemma UnknownTagRejected(obj: map<string, Json>)
    requires "type" in obj && obj["type"].JStr?
    requires obj["type"].s != DiscountTag && obj["type"].s != BogoTag
    ensures Decode(obj) == None
  {
  }

  /** A missing required property is a decoding failure, not a null field. */
  lemma MissingRequiredPropertyRejected(obj: map<string, Json>)
    requires "type" in obj
    requires obj["type"] == JStr(DiscountTag) ==> "amount" !in obj
    requires obj["type"] == JStr(BogoTag) ==> "description" !in obj
    ensures Decode(obj) == None
  {
  }

  /** The `@NotNull` constraint of each variant: its one field is present. */
  predicate Valid(p: Promotion) {
    match p
    case DiscountPromotion(amount) => amount.Some?
    case BuyOneGetOnePromotion(description) => description.Some?
  }

  /** The violation of that constraint, with its default message. */
  function Violations(p: Promotion): (r: seq<FieldError>)
    ensures r == [] <==> Valid(p)
    ensures |r| <= 1
  {
    match p
    case DiscountPromotion(None) => [FieldError("amount", Some("must not be null"))]
    case BuyOneGetOnePromotion(None) => [FieldError("description", Some("must not be null"))]
    case _ => []
  }
}
