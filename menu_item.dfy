/**
 * The menu item of the Spring service: its fields, the constraints its
 * annotations declare, the size enum, and the setters the service uses to
 * change a stored item in place.
 */
module MenuItems {
  import opened Wrappers
  import opened JavaErrors
  import opened Modifiers
  import opened Promotions

  datatype ItemSize = Small | Medium | Large

  /** The enum constant's name, which is also its JSON form. */
  function SizeName(size: ItemSize): string {
    match size
    case Small => "Small"
    case Medium => "Medium"
    case Large => "Large"
  }

  function ParseSize(name: string): (r: Option<ItemSize>)
    ensures r.Some? ==> SizeName(r.value) == name
  {
    if name == "Small" then Some(Small)
    else if name == "Medium" then Some(Medium)
    else if name == "Large" then Some(Large)
    else None
  }

  /** Every size reads back from its name; no other name is a size. */
  lemma ParseSizeName(size: ItemSize, name: string)
    ensures ParseSize(SizeName(size)) == Some(size)
    ensures ParseSize(name).None? <==> name != "Small" && name != "Medium" && name != "Large"
  {
    assert "Small"[0] != "Medium"[0] && "Small"[0] != "Large"[0] && "Medium"[0] != "Large"[0];
  }

  /** The value of every field of a menu item at one moment; `None` is `null`. */
  datatype MenuItemData = MenuItemData(
    id: Option<int>,
    name: JavaString,
    description: JavaString,
    price: Option<real>,
    size: Option<ItemSize>,
    extraItems: Option<seq<string>>,
    modifiers: Option<seq<Modifier>>,
    promotion: Option<Promotion>)

  /** The declared constraints; nested modifiers and the promotion are not validated (no `@Valid`). */
  predicate MeetsConstraints(d: MenuItemData) {
    && d.name.Some? && 3 <= |d.name.value| <= 50
    && (d.description.Some? ==> |d.description.value| <= 100)
    && d.price.Some? && d.price.value >= 0.0
    && d.size.Some?
    && d.extraItems.Some? && |d.extraItems.value| <= 5
    && d.modifiers.Some?
    && d.promotion.Some?
  }

  /** A constraint a field can break. */
  datatype Constraint = NotNull | SizeBetween(min: nat, max: nat) | AtLeast(bound: int)

  /** The default message of each constraint. */
  function DefaultMessage(c: Constraint): string {
    match c
    case NotNull => "must not be null"
    case SizeBetween(min, max) => "size must be between " + NaturalString(min) + " and " + NaturalString(max)
    case AtLeast(bound) => "must be greater than or equal to " + NaturalString(if bound < 0 then 0 else bound)
  }

  function NaturalString(n: nat): string {
    if n < 10 then [(n + '0' as int) as char] else NaturalString(n / 10) + [(n % 10 + '0' as int) as char]
  }

  datatype Violation = Violation(field: string, constraint: Constraint)

  function AsFieldError(v: Violation): FieldError {
    FieldError(v.field, Some(DefaultMessage(v.constraint)))
  }

  /** A field's own violations: `null` breaks only `@NotNull`, since size and bound accept `null`. */
  function NameViolations(name: JavaString): (r: seq<Violation>)
    ensures |r| <= 1
    ensures r == [] <==> name.Some? && 3 <= |name.value| <= 50
  {
    if name.None? then [Violation("name", NotNull)]
    else if !(3 <= |name.value| <= 50) then [Violation("name", SizeBetween(3, 50))]
    else []
  }

  function PriceViolations(price: Option<real>): (r: seq<Violation>)
    ensures |r| <= 1
    ensures r == [] <==> price.Some? && price.value >= 0.0
  {
    if price.None? then [Violation("price", NotNull)]
    else if price.value < 0.0 then [Violation("price", AtLeast(0))]
    else []
  }

  function ExtraItemsViolations(extraItems: Option<seq<string>>): (r: seq<Violation>)
    ensures |r| <= 1
    ensures r == [] <==> extraItems.Some? && |extraItems.value| <= 5
  {
    if extraItems.None? then [Violation("extraItems", NotNull)]
    else if |extraItems.value| > 5 then [Violation("extraItems", SizeBetween(0, 5))]
    else []
  }

  /** Every violation of the item, field by field in declaration order. */
  function Violations(d: MenuItemData): (r: seq<Violation>)
    ensures r == [] <==> MeetsConstraints(d)
    ensures |r| <= 7
  {
    NameViolations(d.name)
    + (if d.description.Some? && |d.description.value| > 100 then [Violation("description", SizeBetween(0, 100))] else [])
    + PriceViolations(d.price)
    + (if d.size.None? then [Violation("size", NotNull)] else [])
    + ExtraItemsViolations(d.extraItems)
    + (if d.modifiers.None? then [Violation("modifiers", NotNull)] else [])
    + (if d.promotion.None? then [Violation("promotion", NotNull)] else [])
  }

  function AsFieldErrors(violations: seq<Violation>): (r: seq<FieldError>)
    ensures |r| == |violations|
    ensures forall i :: 0 <= i < |violations| ==> r[i] == AsFieldError(violations[i])
  {
    if violations == [] then [] else [AsFieldError(violations[0])] + AsFieldErrors(violations[1..])
  }

  /** The field errors a failed validation of the item carries, in declaration order. */
  function FieldErrors(d: MenuItemData): (r: seq<FieldError>)
    ensures r == [] <==> MeetsConstraints(d)
    ensures d.name.None? ==> r[0] == FieldError("name", Some(DefaultMessage(NotNull)))
  {
    AsFieldErrors(Violations(d))
  }

  /** The constraints never look inside modifiers or the promotion. */
  lemma NestedValuesNotValidated(d: MenuItemData, modifiers: seq<Modifier>, promotion: Promotion)
    requires d.modifiers.Some? && d.promotion.Some?
    ensures Violations(d.(modifiers := Some(modifiers), promotion := Some(promotion))) == Violations(d)
  {
  }

  /** A menu item object: Jackson fills it field by field; the service changes it through the setters. */
  class MenuItem {
    var id: Option<int>
    var name: JavaString
    var description: JavaString
    var price: Option<real>
    var size: Option<ItemSize>
    var extraItems: Option<seq<string>>
    var modifiers: Option<seq<Modifier>>
    var promotion: Option<Promotion>

    constructor (d: MenuItemData)
      ensures Data() == d
    {
      id, name, description, price := d.id, d.name, d.description, d.price;
      size, extraItems, modifiers, promotion := d.size, d.extraItems, d.modifiers, d.promotion;
    }

    function Data(): MenuItemData
      reads this
    {
      MenuItemData(id, name, description, price, size, extraItems, modifiers, promotion)
    }

    method SetId(v: Option<int>)
      modifies this
      ensures Data() == old(Data()).(id := v)
    {
      id := v;
    }

    method SetName(v: JavaString)
      modifies this
      ensures Data() == old(Data()).(name := v)
    {
      name := v;
    }

    method SetDescription(v: JavaString)
      modifies this
      ensures Data() == old(Data()).(description := v)
    {
      description := v;
    }

    method SetPrice(v: Option<real>)
      modifies this
      ensures Data() == old(Data()).(price := v)
    {
      price := v;
    }
  }
}
