/**
 * `validateOrder` of the Express order server: the list of errors it builds
 * for a parsed request body.  The body is a JSON object; a JSON array body has
 * no own named properties and behaves like the empty object.
 *
 * The validator is written against JavaScript's dynamic objects, so besides the
 * errors it collects it can also throw a TypeError of its own: calling
 * `hasOwnProperty` on a `null` item, calling it on an object whose JSON key
 * "hasOwnProperty" hides the method, or reading `length` of a `null`
 * customer_name.  Such an error escapes the route handler and becomes a 500.
 *
 * Errors are kept as values of `OrderError`; `Message` renders each as the
 * exact text the server sends.
 */
module OrderValidation {
  import opened Wrappers
  import opened JsonValues

  /** One entry of the validator's error list; item errors carry the zero-based index. */
  datatype OrderError =
    | CustomerNameRequired
    | CustomerNameLength
    | ItemsRequired
    | ItemsNotArray
    | ItemsEmpty
    | MenuItemIdRequired(index: nat)
    | MenuItemIdNotNumber(index: nat)
    | QuantityRequired(index: nat)
    | QuantityNotPositive(index: nat)
    | TotalPriceInvalid
  {
    /** An error produced by the per-item rules. */
    predicate IsItemError() {
      MenuItemIdRequired? || MenuItemIdNotNumber? || QuantityRequired? || QuantityNotPositive?
    }
  }

  /** The text the server sends for each error. */
  function Message(e: OrderError): string {
    match e
    case CustomerNameRequired => "customer_name is required"
    case CustomerNameLength => "Customer name must be between 3 and 50 characters"
    case ItemsRequired => "items is required"
    case ItemsNotArray => "items must be an array"
    case ItemsEmpty => "Order must contain at least one item"
    case MenuItemIdRequired(i) => Label(i) + "menu_item_id is required"
    case MenuItemIdNotNumber(i) => Label(i) + "menu_item_id must be a number"
    case QuantityRequired(i) => Label(i) + "quantity is required"
    case QuantityNotPositive(i) => Label(i) + "quantity must be a positive number and at least 1"
    case TotalPriceInvalid => "total_price must be a non-negative number"
  }

  /** The `errors` array of a 400 validation answer: the text of each error, in order. */
  function Messages(errors: seq<OrderError>): seq<string>
  {
    seq(|errors|, i requires 0 <= i < |errors| => Message(errors[i]))
  }

  /** JavaScript's rendering of a non-negative integer in a template literal. */
  function DecimalString(n: nat): (r: string)
    ensures |r| >= 1
    ensures forall i :: 0 <= i < |r| ==> '0' <= r[i] <= '9'
  {
    var digit := [('0' as int + n % 10) as char];
    if n < 10 then digit else DecimalString(n / 10) + digit
  }

  /** The prefix `Item ${index}: ` of every per-item message. */
  function Label(index: nat): string {
    "Item " + DecimalString(index) + ": "
  }

  /** The TypeErrors the validator's own code can raise. */
  datatype TypeError =
    | NotAFunction(callee: string)   // a JSON key "hasOwnProperty" hides the method
    | ReadOfNull(property: string)   // a property read on `null`

  /** The outcome of validation: the collected errors, or the error it threw. */
  datatype Checked = Collected(errors: seq<OrderError>) | Threw(error: TypeError)

  /** Runs `first`, then `next` unless `first` threw; errors keep their order. */
  function AndThen(first: Checked, next: Checked): Checked {
    match first
    case Threw(_) => first
    case Collected(e1) =>
      match next
      case Threw(_) => next
      case Collected(e2) => Collected(e1 + e2)
  }

  /** An own property of a value: only objects have named own properties. */
  function Prop(v: Json, key: string): Option<Json> {
    if v.JObj? && key in v.props then Some(v.props[key]) else None
  }

  /** JavaScript's ToNumber of a `length` property value; `None` stands for NaN. */
  function LooseNumber(v: Json): Option<real> {
    match v
    case JNum(n) => Some(n)
    case JBool(b) => Some(if b then 1.0 else 0.0)
    case JNull => Some(0.0)
    case _ => None
  }

  /**
   * `v.length` as it takes part in `< 3` and `> 50`: `None` when it is
   * undefined (numbers, booleans, objects without the key) or NaN, for which
   * both comparisons are false; a failure when `v` is `null`.
   */
  function LengthOf(v: Json): Result<Option<real>, TypeError> {
    match v
    case JNull => Failure(ReadOfNull("length"))
    case JStr(s) => Success(Some(|s| as real))
    case JArr(a) => Success(Some(|a| as real))
    case JObj(m) => Success(if "length" in m then LooseNumber(m["length"]) else None)
    case _ => Success(None)
  }

  /** The customer_name rule. */
  function NameCheck(order: map<string, Json>): (r: Checked)
    ensures "hasOwnProperty" in order <==> r == Threw(NotAFunction("order.hasOwnProperty"))
    ensures r.Collected? ==> |r.errors| <= 1
    ensures "hasOwnProperty" !in order && "customer_name" !in order ==> r == Collected([CustomerNameRequired])
    ensures "hasOwnProperty" !in order && "customer_name" in order ==>
      match order["customer_name"]
      case JNull => r == Threw(ReadOfNull("length"))
      case JStr(s) => r == Collected(if 3 <= |s| <= 50 then [] else [CustomerNameLength])
      case JNum(_) => r == Collected([])
      case JBool(_) => r == Collected([])
      case _ => r.Collected?
  {
    if "hasOwnProperty" in order then Threw(NotAFunction("order.hasOwnProperty"))
    else if "customer_name" !in order then Collected([CustomerNameRequired])
    else
      match LengthOf(order["customer_name"])
      case Failure(e) => Threw(e)
      case Success(None) => Collected([])
      case Success(Some(len)) =>
        if len < 3.0 || len > 50.0 then Collected([CustomerNameLength]) else Collected([])
  }

  /** The menu_item_id rule of one item: at most one error, carrying the item's index. */
  function MenuItemIdErrors(index: nat, id: Option<Json>): seq<OrderError>
  {
    if id.None? then [MenuItemIdRequired(index)]
    else if !id.value.JNum? then [MenuItemIdNotNumber(index)]
    else []
  }

  /** The quantity rule of one item: at most one error, carrying the item's index. */
  function QuantityErrors(index: nat, quantity: Option<Json>): seq<OrderError>
  {
    if quantity.None? then [QuantityRequired(index)]
    else if !(quantity.value.JNum? && quantity.value.n >= 1.0) then [QuantityNotPositive(index)]
    else []
  }

  /** Both rules of one item; the `hasOwnProperty` call throws for `null` or a shadowing key. */
  function ItemCheck(index: nat, item: Json): Checked {
    if item.JNull? then Threw(ReadOfNull("hasOwnProperty"))
    else if item.JObj? && "hasOwnProperty" in item.props then Threw(NotAFunction("item.hasOwnProperty"))
    else Collected(MenuItemIdErrors(index, Prop(item, "menu_item_id")) + QuantityErrors(index, Prop(item, "quantity")))
  }

  /** The `forEach` over the first `n` items: their errors in index order. */
  function ItemsUpTo(items: seq<Json>, n: nat): Checked
    requires n <= |items|
  {
    if n == 0 then Collected([]) else AndThen(ItemsUpTo(items, n - 1), ItemCheck(n - 1, items[n - 1]))
  }

  /** The items rule: absent, then not an array, then empty; per-item rules only for a non-empty array. */
  function ItemsCheck(order: map<string, Json>): Checked {
    if "hasOwnProperty" in order then Threw(NotAFunction("order.hasOwnProperty"))
    else if "items" !in order then Collected([ItemsRequired])
    else
      match order["items"]
      case JArr(items) => if |items| == 0 then Collected([ItemsEmpty]) else ItemsUpTo(items, |items|)
      case _ => Collected([ItemsNotArray])
  }

  /** The total_price rule: only a supplied value is checked, and it never throws. */
  function TotalPriceCheck(order: map<string, Json>): (r: Checked)
    ensures r.Collected? && |r.errors| <= 1
    ensures r.errors == [] <==> ("total_price" in order ==> order["total_price"].JNum? && order["total_price"].n >= 0.0)
  {
    if "total_price" !in order then Collected([])
    else
      match order["total_price"]
      case JNum(n) => if n < 0.0 then Collected([TotalPriceInvalid]) else Collected([])
      case _ => Collected([TotalPriceInvalid])
  }

  /** `validateOrder`: the three rules in order, each adding its errors to one list. */
  function OrderCheck(order: map<string, Json>): Checked {
    AndThen(NameCheck(order), AndThen(ItemsCheck(order), TotalPriceCheck(order)))
  }

  /** The imperative validator, pushing onto one `errors` list as the source does. */
  method ValidateOrder(order: map<string, Json>) returns (result: Checked)
    ensures result == OrderCheck(order)
  {
    var errors: seq<OrderError> := [];
    if "hasOwnProperty" in order {
      return Threw(NotAFunction("order.hasOwnProperty"));
    }
    if "customer_name" !in order {
      errors := errors + [CustomerNameRequired];
    } else {
      var length := LengthOf(order["customer_name"]);
      if length.Failure? {
        return Threw(length.error);
      }
      if length.value.Some? && (length.value.value < 3.0 || length.value.value > 50.0) {
        errors := errors + [CustomerNameLength];
      }
    }
    assert NameCheck(order) == Collected(errors);
    if "items" !in order {
      errors := errors + [ItemsRequired];
    } else if !order["items"].JArr? {
      errors := errors + [ItemsNotArray];
    } else if |order["items"].elems| == 0 {
      errors := errors + [ItemsEmpty];
    } else {
      var pushed := PushItemErrors(order["items"].elems, errors);
      if pushed.Threw? {
        return pushed;
      }
      errors := pushed.errors;
    }
    assert AndThen(NameCheck(order), ItemsCheck(order)) == Collected(errors);
    ghost var beforeTotal := errors;
    if "total_price" in order {
      var total := order["total_price"];
      if !total.JNum? || total.n < 0.0 {
        errors := errors + [TotalPriceInvalid];
      }
    }
    assert errors == beforeTotal + TotalPriceCheck(order).errors;
    AndThenAssociative(NameCheck(order), ItemsCheck(order), TotalPriceCheck(order));
    return Collected(errors);
  }

  /** The `forEach` over the items, pushing each item's errors onto `errors`. */
  method PushItemErrors(items: seq<Json>, errors: seq<OrderError>) returns (result: Checked)
    ensures result == AndThen(Collected(errors), ItemsUpTo(items, |items|))
  {
    var pushed := errors;
    var index := 0;
    while index < |items|
      invariant 0 <= index <= |items|
      invariant ItemsUpTo(items, index).Collected?
      invariant pushed == errors + ItemsUpTo(items, index).errors
    {
      var checked := CheckItem(index, items[index]);
      if checked.Threw? {
        ThrowPersists(items, index + 1, |items|);
        return checked;
      }
      ghost var done := ItemsUpTo(items, index).errors;
      assert ItemsUpTo(items, index + 1) == Collected(done + checked.errors);
      assert (errors + done) + checked.errors == errors + (done + checked.errors);
      pushed := pushed + checked.errors;
      index := index + 1;
    }
    return Collected(pushed);
  }

  lemma AndThenAssociative(a: Checked, b: Checked, c: Checked)
    ensures AndThen(AndThen(a, b), c) == AndThen(a, AndThen(b, c))
  {
    if a.Collected? && b.Collected? && c.Collected? {
      assert (a.errors + b.errors) + c.errors == a.errors + (b.errors + c.errors);
    }
  }

  /** The `forEach` callback for one item. */
  method CheckItem(index: nat, item: Json) returns (result: Checked)
    ensures result == ItemCheck(index, item)
  {
    if item.JNull? {
      return Threw(ReadOfNull("hasOwnProperty"));
    }
    if item.JObj? && "hasOwnProperty" in item.props {
      return Threw(NotAFunction("item.hasOwnProperty"));
    }
    var errors: seq<OrderError> := [];
    var id := Prop(item, "menu_item_id");
    if id.None? {
      errors := errors + [MenuItemIdRequired(index)];
    } else if !id.value.JNum? {
      errors := errors + [MenuItemIdNotNumber(index)];
    }
    var quantity := Prop(item, "quantity");
    if quantity.None? {
      errors := errors + [QuantityRequired(index)];
    } else if !(quantity.value.JNum? && quantity.value.n >= 1.0) {
      errors := errors + [QuantityNotPositive(index)];
    }
    return Collected(errors);
  }

  /** Once an item has thrown, the rest of the `forEach` never runs. */
  lemma {:induction false} ThrowPersists(items: seq<Json>, i: nat, n: nat)
    requires i <= n <= |items|
    requires ItemsUpTo(items, i).Threw?
    ensures ItemsUpTo(items, n) == ItemsUpTo(items, i)
  {
    if n > i {
      ThrowPersists(items, i, n - 1);
    }
  }

  // ---------------------------------------------------------------------------
  // The rules stated declaratively, and what the validator promises about them.

  /** A customer_name the rule lets through. */
  predicate NameAcceptable(v: Json) {
    && !v.JNull?
    && (LengthOf(v).value.Some? ==> 3.0 <= LengthOf(v).value.value <= 50.0)
  }

  /** An order line the per-item rules let through. */
  predicate LineAcceptable(item: Json) {
    && item.JObj?
    && "hasOwnProperty" !in item.props
    && "menu_item_id" in item.props && item.props["menu_item_id"].JNum?
    && "quantity" in item.props && item.props["quantity"].JNum? && item.props["quantity"].n >= 1.0
  }

  /** Every rule of the validator, as one condition on the body. */
  predicate OrderAcceptable(order: map<string, Json>) {
    && "hasOwnProperty" !in order
    && "customer_name" in order && NameAcceptable(order["customer_name"])
    && "items" in order && order["items"].JArr? && |order["items"].elems| > 0
    && (forall k :: 0 <= k < |order["items"].elems| ==> LineAcceptable(order["items"].elems[k]))
    && ("total_price" in order ==> order["total_price"].JNum? && order["total_price"].n >= 0.0)
  }

  lemma AndThenEmptyIff(first: Checked, next: Checked)
    ensures AndThen(first, next) == Collected([]) <==> first == Collected([]) && next == Collected([])
  {
    if first.Collected? && next.Collected? && first.errors + next.errors == [] {
      assert |first.errors + next.errors| == 0;
    }
  }

  lemma ItemCheckEmptyIff(index: nat, item: Json)
    ensures ItemCheck(index, item) == Collected([]) <==> LineAcceptable(item)
  {
    if ItemCheck(index, item) == Collected([]) {
      assert MenuItemIdErrors(index, Prop(item, "menu_item_id")) == [];
      assert QuantityErrors(index, Prop(item, "quantity")) == [];
    }
  }

  /** No error and no throw, stated through the length so that no sequence equality is needed. */
  predicate Clean(c: Checked) {
    c.Collected? && |c.errors| == 0
  }

  lemma AndThenClean(first: Checked, next: Checked)
    ensures Clean(AndThen(first, next)) <==> Clean(first) && Clean(next)
  {
  }

  lemma {:induction false} CleanItemsAreClean(items: seq<Json>, n: nat)
    requires n <= |items|
    requires Clean(ItemsUpTo(items, n))
    ensures forall k :: 0 <= k < n ==> Clean(ItemCheck(k, items[k]))
  {
    if n > 0 {
      AndThenClean(ItemsUpTo(items, n - 1), ItemCheck(n - 1, items[n - 1]));
      CleanItemsAreClean(items, n - 1);
    }
  }

  lemma {:induction false} CleanItemsMakeClean(items: seq<Json>, n: nat)
    requires n <= |items|
    requires forall k :: 0 <= k < n ==> Clean(ItemCheck(k, items[k]))
    ensures Clean(ItemsUpTo(items, n))
  {
    if n > 0 {
      CleanItemsMakeClean(items, n - 1);
      AndThenClean(ItemsUpTo(items, n - 1), ItemCheck(n - 1, items[n - 1]));
    }
  }

  /** The `forEach` reports nothing and does not throw exactly when every line is acceptable. */
  lemma ItemsUpToEmptyIff(items: seq<Json>, n: nat)
    requires n <= |items|
    ensures ItemsUpTo(items, n) == Collected([]) <==> forall k :: 0 <= k < n ==> LineAcceptable(items[k])
  {
    forall k | 0 <= k < n {
      ItemCheckEmptyIff(k, items[k]);
    }
    if Clean(ItemsUpTo(items, n)) {
      CleanItemsAreClean(items, n);
    }
    if forall k :: 0 <= k < n ==> LineAcceptable(items[k]) {
      CleanItemsMakeClean(items, n);
    }
  }

  /** The validator reports nothing and does not throw exactly when every rule passes. */
  lemma OrderCheckEmptyIff(order: map<string, Json>)
    ensures OrderCheck(order) == Collected([]) <==> OrderAcceptable(order)
  {
    AndThenEmptyIff(ItemsCheck(order), TotalPriceCheck(order));
    AndThenEmptyIff(NameCheck(order), AndThen(ItemsCheck(order), TotalPriceCheck(order)));
    if "items" in order && order["items"].JArr? {
      ItemsUpToEmptyIff(order["items"].elems, |order["items"].elems|);
    }
  }

  /** The rules are independent: a body lacking both customer_name and items gets both errors. */
  lemma MissingNameAndItemsBothReported(order: map<string, Json>)
    requires "hasOwnProperty" !in order && "customer_name" !in order && "items" !in order
    ensures OrderCheck(order) == Collected([CustomerNameRequired, ItemsRequired] + TotalPriceCheck(order).errors)
  {
  }

  /** The texts a 400 answer carries for a body with neither customer_name nor items nor total_price. */
  lemma MissingNameAndItemsMessages(order: map<string, Json>)
    requires "hasOwnProperty" !in order && "customer_name" !in order && "items" !in order && "total_price" !in order
    ensures OrderCheck(order).Collected?
    ensures Messages(OrderCheck(order).errors) == ["customer_name is required", "items is required"]
  {
    MissingNameAndItemsBothReported(order);
  }

  /**
   * One item adds at most one menu_item_id error and at most one quantity
   * error, both carrying its index, and none exactly when the line is acceptable.
   */
  lemma ItemCheckErrors(index: nat, item: Json)
    requires ItemCheck(index, item).Collected?
    ensures |MenuItemIdErrors(index, Prop(item, "menu_item_id"))| <= 1
    ensures |QuantityErrors(index, Prop(item, "quantity"))| <= 1
    ensures ItemCheck(index, item).errors ==
              MenuItemIdErrors(index, Prop(item, "menu_item_id")) + QuantityErrors(index, Prop(item, "quantity"))
    ensures forall e :: e in ItemCheck(index, item).errors ==> e.IsItemError() && e.index == index
  {
  }

  lemma {:induction false} ItemsUpToItemErrors(items: seq<Json>, n: nat)
    requires n <= |items|
    requires ItemsUpTo(items, n).Collected?
    ensures |ItemsUpTo(items, n).errors| <= 2 * n
    ensures forall e :: e in ItemsUpTo(items, n).errors ==> e.IsItemError() && e.index < n
  {
    if n > 0 {
      ItemsUpToItemErrors(items, n - 1);
      if ItemCheck(n - 1, items[n - 1]).Collected? {
        ItemCheckErrors(n - 1, items[n - 1]);
      }
    }
  }

  /**
   * The items rule reports at most one of "required", "not an array" and
   * "empty", in that precedence; the per-item errors appear only for a
   * non-empty array, at most two per item, each carrying an index of the array.
   */
  lemma ItemsCheckPrecedence(order: map<string, Json>)
    requires "hasOwnProperty" !in order
    ensures "items" !in order ==> ItemsCheck(order) == Collected([ItemsRequired])
    ensures "items" in order && !order["items"].JArr? ==> ItemsCheck(order) == Collected([ItemsNotArray])
    ensures "items" in order && order["items"] == JArr([]) ==> ItemsCheck(order) == Collected([ItemsEmpty])
    ensures "items" in order && order["items"].JArr? && |order["items"].elems| > 0 && ItemsCheck(order).Collected? ==>
      && |ItemsCheck(order).errors| <= 2 * |order["items"].elems|
      && forall e :: e in ItemsCheck(order).errors ==> e.IsItemError() && e.index < |order["items"].elems|
  {
    if "items" in order && order["items"].JArr? && |order["items"].elems| > 0 && ItemsCheck(order).Collected? {
      ItemsUpToItemErrors(order["items"].elems, |order["items"].elems|);
    }
  }

  /** Every per-item message starts with `Item ${index}: `. */
  lemma ItemMessageLabelled(e: OrderError)
    requires e.IsItemError()
    ensures Message(e)[..|Label(e.index)|] == Label(e.index)
  {
  }
}
