/**
 * The Express server's in-memory store and its order routes. Each route is
 * first stated as a pure transition over `DbState` (the orders and the next
 * order id) that yields the new state and the response; the class `Db` then
 * holds that state in fields and its methods update them in place, each
 * proved to make exactly the transition its specification describes.
 */
module OrderServer {
  import opened Wrappers
  import opened JsonValues
  import opened OrderValidation
  import opened OrderPricing

  /** A stored order: customer_name and items are kept exactly as the client sent them. */
  datatype Order = Order(id: int, customerName: Json, items: seq<Json>, totalPrice: real)

  /** What a route answers; the status code of each is given by `Status`. */
  datatype Response =
    | OrderList(orders: seq<Order>)
    | Created(id: int)
    | Updated(order: Order)
    | Deleted
    | MenuList(entries: seq<MenuEntry>)
    | MenuItemFound(entry: MenuEntry)
    | ValidationFailed(errors: seq<OrderError>)
    | UnknownMenuItem(menuItemId: real)
    | OrderIdNotANumber
    | OrderNotFound(orderId: int)
    | MenuItemNotFound(menuId: Option<int>)
    | InternalError(error: TypeError)

  function Status(r: Response): int {
    match r
    case OrderList(_) => 200
    case Created(_) => 201
    case Updated(_) => 200
    case Deleted => 204
    case MenuList(_) => 200
    case MenuItemFound(_) => 200
    case ValidationFailed(_) => 400
    case UnknownMenuItem(_) => 400
    case OrderIdNotANumber => 400
    case OrderNotFound(_) => 404
    case MenuItemNotFound(_) => 404
    case InternalError(_) => 500
  }

  /** The mutable part of `db`: the orders and the next order id. */
  datatype DbState = DbState(orders: seq<Order>, nextOrderId: int)

  /** One route's effect: the state after it and the response it sends. */
  datatype Step = Step(state: DbState, response: Response)

  const InitialState: DbState := DbState([], 1)

  /** Order ids are positive, strictly increasing in storage order, and below the counter. */
  predicate StoreInvariant(s: DbState) {
    && 1 <= s.nextOrderId
    && (forall i, j :: 0 <= i < j < |s.orders| ==> s.orders[i].id < s.orders[j].id)
    && (forall i :: 0 <= i < |s.orders| ==> 1 <= s.orders[i].id < s.nextOrderId)
  }

  predicate HasId(orders: seq<Order>, id: int) {
    exists k :: 0 <= k < |orders| && orders[k].id == id
  }

  /** `orders.findIndex(o => o.id === id)`, with `None` for -1. */
  function FindOrderIndex(orders: seq<Order>, id: int): Option<nat> {
    if orders == [] then None
    else if orders[0].id == id then Some(0)
    else
      match FindOrderIndex(orders[1..], id)
      case None => None
      case Some(k) => Some(k + 1)
  }

  /** The search finds nothing exactly when no order has the id, and otherwise the first one that has it. */
  lemma {:induction false} FindOrderIndexFirst(orders: seq<Order>, id: int)
    ensures FindOrderIndex(orders, id).None? <==> !HasId(orders, id)
    ensures FindOrderIndex(orders, id).Some? ==>
              && FindOrderIndex(orders, id).value < |orders|
              && orders[FindOrderIndex(orders, id).value].id == id
              && forall j :: 0 <= j < FindOrderIndex(orders, id).value ==> orders[j].id != id
  {
    if orders != [] && orders[0].id != id {
      FindOrderIndexFirst(orders[1..], id);
      if HasId(orders, id) {
        var k :| 0 <= k < |orders| && orders[k].id == id;
        assert orders[1..][k - 1].id == id;
      }
      if HasId(orders[1..], id) {
        var k :| 0 <= k < |orders[1..]| && orders[1..][k].id == id;
        assert orders[k + 1].id == id;
      }
    } else if orders != [] {
      assert orders[0].id == id;
    }
  }

  /** In a store whose ids increase, the search finds the one order carrying the id. */
  lemma FindOrderIndexUnique(s: DbState, k: nat)
    requires StoreInvariant(s) && k < |s.orders|
    ensures FindOrderIndex(s.orders, s.orders[k].id) == Some(k)
  {
    FindOrderIndexFirst(s.orders, s.orders[k].id);
  }

  /** The orders other than those carrying `id`, in their order. */
  function WithoutId(orders: seq<Order>, id: int): seq<Order> {
    if orders == [] then []
    else if orders[0].id == id then WithoutId(orders[1..], id)
    else [orders[0]] + WithoutId(orders[1..], id)
  }

  lemma {:induction false} WithoutIdAbsent(orders: seq<Order>, id: int)
    requires forall k :: 0 <= k < |orders| ==> orders[k].id != id
    ensures WithoutId(orders, id) == orders
  {
    if orders != [] {
      WithoutIdAbsent(orders[1..], id);
    }
  }

  // ---------------------------------------------------------------------------
  // Validation and pricing, as create and update share them.

  /** The lines of a body that passed validation. */
  function BodyLines(body: map<string, Json>): (r: seq<Line>)
    requires OrderAcceptable(body)
    ensures |r| == |body["items"].elems|
  {
    LinesOf(body["items"].elems)
  }

  /**
   * Validate the body, then price its lines: the total, or the response that
   * rejects the body.
   */
  function CheckedTotal(body: map<string, Json>, menu: seq<MenuEntry>): Result<real, Response> {
    OrderCheckEmptyIff(body);
    match OrderCheck(body)
    case Threw(e) => Failure(InternalError(e))
    case Collected(errors) =>
      if errors != [] then Failure(ValidationFailed(errors))
      else
        var lines := BodyLines(body);
        match PriceUpTo(lines, menu, |lines|)
        case MissingMenuItem(id) => Failure(UnknownMenuItem(id))
        case Total(t) => Success(t)
  }

  /**
   * A body is accepted exactly when every validation rule holds and every
   * line's item is on the menu, and then its total is Σ price × quantity.
   */
  lemma CheckedTotalOutcome(body: map<string, Json>, menu: seq<MenuEntry>)
    ensures CheckedTotal(body, menu).Success? <==> OrderAcceptable(body) && AllResolve(BodyLines(body), menu)
    ensures CheckedTotal(body, menu).Success? ==> CheckedTotal(body, menu).value == Sum(BodyLines(body), menu)
  {
    OrderCheckEmptyIff(body);
    if OrderAcceptable(body) {
      PriceOutcome(BodyLines(body), menu);
    }
  }

  /** A rejected body is answered 400, or 500 when validation throws. */
  lemma CheckedTotalRejection(body: map<string, Json>, menu: seq<MenuEntry>)
    requires CheckedTotal(body, menu).Failure?
    ensures Status(CheckedTotal(body, menu).error) == 400 || CheckedTotal(body, menu).error.InternalError?
    ensures CheckedTotal(body, menu).error.InternalError? <==> OrderCheck(body).Threw?
  {
  }

  /** A body that fails validation is answered with the errors, whatever the menu. */
  lemma CheckedTotalRejectsInvalid(body: map<string, Json>, menu: seq<MenuEntry>)
    requires OrderCheck(body).Collected? && OrderCheck(body).errors != []
    ensures CheckedTotal(body, menu) == Failure(ValidationFailed(OrderCheck(body).errors))
    ensures !OrderAcceptable(body)
  {
    OrderCheckEmptyIff(body);
  }

  /** A valid body naming an item that is not on the menu is answered with the first such id. */
  lemma CheckedTotalNamesFirstUnknownItem(body: map<string, Json>, menu: seq<MenuEntry>, k: nat)
    requires OrderAcceptable(body)
    requires k < |BodyLines(body)| && !Resolves(BodyLines(body)[k], menu)
    requires forall j :: 0 <= j < k ==> Resolves(BodyLines(body)[j], menu)
    ensures CheckedTotal(body, menu) == Failure(UnknownMenuItem(body["items"].elems[k].props["menu_item_id"].n))
  {
    OrderCheckEmptyIff(body);
    PriceOutcome(BodyLines(body), menu);
  }

  // ---------------------------------------------------------------------------
  // The routes as transitions.

  /** POST /v1/orders: store the order under the next id and answer 201 with that id. */
  function CreateOrderStep(s: DbState, menu: seq<MenuEntry>, body: map<string, Json>): Step {
    CheckedTotalOutcome(body, menu);
    match CheckedTotal(body, menu)
    case Failure(response) => Step(s, response)
    case Success(total) =>
      var order := Order(s.nextOrderId, body["customer_name"], body["items"].elems, total);
      Step(DbState(s.orders + [order], s.nextOrderId + 1), Created(order.id))
  }

  /** DELETE /v1/orders/:orderId, where `orderId` is `None` when parseInt gives NaN. */
  function DeleteOrderStep(s: DbState, orderId: Option<int>): Step {
    match orderId
    case None => Step(s, OrderIdNotANumber)
    case Some(id) =>
      FindOrderIndexFirst(s.orders, id);
      match FindOrderIndex(s.orders, id)
      case None => Step(s, OrderNotFound(id))
      case Some(k) => Step(DbState(s.orders[..k] + s.orders[k + 1..], s.nextOrderId), Deleted)
  }

  /**
   * PUT /v1/orders/:orderId: the id is looked up before the body is
   * validated, and the stored order is replaced in place, keeping its id.
   */
  function UpdateOrderStep(s: DbState, menu: seq<MenuEntry>, orderId: Option<int>, body: map<string, Json>): Step {
    match orderId
    case None => Step(s, OrderIdNotANumber)
    case Some(id) =>
      FindOrderIndexFirst(s.orders, id);
      match FindOrderIndex(s.orders, id)
      case None => Step(s, OrderNotFound(id))
      case Some(k) =>
        CheckedTotalOutcome(body, menu);
        match CheckedTotal(body, menu)
        case Failure(response) => Step(s, response)
        case Success(total) =>
          var order := Order(id, body["customer_name"], body["items"].elems, total);
          Step(DbState(s.orders[k := order], s.nextOrderId), Updated(order))
  }

  /** GET /v1/menu/:menuId, where `menuId` is `None` when parseInt gives NaN. */
  function MenuItemLookup(menu: seq<MenuEntry>, menuId: Option<int>): (r: Response)
    ensures r.MenuItemFound? || r == MenuItemNotFound(menuId)
    ensures r.MenuItemFound? ==> menuId.Some? && r.entry in menu && r.entry.id == menuId.value
    ensures r.MenuItemFound? <==>
              menuId.Some? && exists k :: 0 <= k < |menu| && menu[k].id == menuId.value
  {
    match menuId
    case None => MenuItemNotFound(None)
    case Some(id) =>
      FindMenuEntryFirst(menu, id as real);
      match FindMenuEntry(menu, id as real)
      case None => MenuItemNotFound(menuId)
      case Some(entry) => MenuItemFound(entry)
  }

  // ---------------------------------------------------------------------------
  // What each transition promises.

  /**
   * Creation succeeds exactly for a valid body whose items are all on the
   * menu; it then stores the order under the old counter, with the body's
   * name and items and total Σ price × quantity, and advances the counter.
   * Any rejection leaves the store as it was.
   */
  lemma CreateOrderOutcome(s: DbState, menu: seq<MenuEntry>, body: map<string, Json>)
    ensures var step := CreateOrderStep(s, menu, body);
            && (step.response.Created? <==> OrderAcceptable(body) && AllResolve(BodyLines(body), menu))
            && (!step.response.Created? ==> step.state == s && Status(step.response) in {400, 500})
            && (step.response.Created? ==>
                  && step.response.id == s.nextOrderId
                  && step.state.nextOrderId == s.nextOrderId + 1
                  && step.state.orders == s.orders + [Order(s.nextOrderId, body["customer_name"],
                                                            body["items"].elems, Sum(BodyLines(body), menu))])
  {
    CheckedTotalOutcome(body, menu);
    if CheckedTotal(body, menu).Failure? {
      CheckedTotalRejection(body, menu);
    }
  }

  /**
   * Deletion answers 400 for an id that is not a number and 404 for one no
   * order carries, changing nothing; otherwise it removes one order.
   */
  lemma DeleteOrderOutcome(s: DbState, orderId: Option<int>)
    ensures var step := DeleteOrderStep(s, orderId);
            && (orderId.None? ==> step == Step(s, OrderIdNotANumber))
            && (orderId.Some? && !HasId(s.orders, orderId.value) ==> step == Step(s, OrderNotFound(orderId.value)))
            && (orderId.Some? && HasId(s.orders, orderId.value) ==>
                  && step.response == Deleted
                  && step.state.nextOrderId == s.nextOrderId
                  && |step.state.orders| == |s.orders| - 1)
  {
    if orderId.Some? {
      FindOrderIndexFirst(s.orders, orderId.value);
    }
  }

  /**
   * Updating answers 400 for an id that is not a number and 404 for one no
   * order carries, whatever the body; it succeeds exactly when the id is
   * stored, the body is valid and its items are all on the menu, and then it
   * replaces that order in place, under the same id, leaving the counter.
   */
  lemma UpdateOrderOutcome(s: DbState, menu: seq<MenuEntry>, orderId: Option<int>, body: map<string, Json>)
    ensures var step := UpdateOrderStep(s, menu, orderId, body);
            && (orderId.None? ==> step == Step(s, OrderIdNotANumber))
            && (orderId.Some? && !HasId(s.orders, orderId.value) ==> step == Step(s, OrderNotFound(orderId.value)))
            && (!step.response.Updated? ==> step.state == s)
            && (step.response.Updated? <==>
                  orderId.Some? && HasId(s.orders, orderId.value) &&
                  OrderAcceptable(body) && AllResolve(BodyLines(body), menu))
            && (step.response.Updated? ==>
                  && step.response.order == Order(orderId.value, body["customer_name"], body["items"].elems,
                                                  Sum(BodyLines(body), menu))
                  && step.state.nextOrderId == s.nextOrderId
                  && |step.state.orders| == |s.orders|
                  && exists k :: 0 <= k < |s.orders| && s.orders[k].id == orderId.value &&
                                 step.state.orders == s.orders[k := step.response.order])
  {
    CheckedTotalOutcome(body, menu);
    if orderId.Some? {
      FindOrderIndexFirst(s.orders, orderId.value);
    }
  }

  // ---------------------------------------------------------------------------
  // What the transitions promise together.

  /** Appending an order under the counter, then advancing it, keeps the invariant. */
  lemma AppendKeepsInvariant(s: DbState, order: Order)
    requires StoreInvariant(s) && order.id == s.nextOrderId
    ensures StoreInvariant(DbState(s.orders + [order], s.nextOrderId + 1))
  {
  }

  /** Removing one order keeps the invariant. */
  lemma RemoveKeepsInvariant(s: DbState, k: nat)
    requires StoreInvariant(s) && k < |s.orders|
    ensures StoreInvariant(DbState(s.orders[..k] + s.orders[k + 1..], s.nextOrderId))
  {
    var rest := s.orders[..k] + s.orders[k + 1..];
    assert forall i :: 0 <= i < |rest| ==> rest[i] == s.orders[if i < k then i else i + 1];
  }

  /** Replacing an order by one with the same id keeps the invariant. */
  lemma ReplaceKeepsInvariant(s: DbState, k: nat, order: Order)
    requires StoreInvariant(s) && k < |s.orders| && order.id == s.orders[k].id
    ensures StoreInvariant(DbState(s.orders[k := order], s.nextOrderId))
  {
  }

  lemma CreatePreservesInvariant(s: DbState, menu: seq<MenuEntry>, body: map<string, Json>)
    requires StoreInvariant(s)
    ensures StoreInvariant(CreateOrderStep(s, menu, body).state)
  {
    CheckedTotalOutcome(body, menu);
    match CheckedTotal(body, menu)
    case Failure(_) =>
    case Success(total) =>
      AppendKeepsInvariant(s, Order(s.nextOrderId, body["customer_name"], body["items"].elems, total));
  }

  lemma DeletePreservesInvariant(s: DbState, orderId: Option<int>)
    requires StoreInvariant(s)
    ensures StoreInvariant(DeleteOrderStep(s, orderId).state)
  {
    if orderId.Some? && FindOrderIndex(s.orders, orderId.value).Some? {
      FindOrderIndexFirst(s.orders, orderId.value);
      RemoveKeepsInvariant(s, FindOrderIndex(s.orders, orderId.value).value);
    }
  }

  lemma UpdatePreservesInvariant(s: DbState, menu: seq<MenuEntry>, orderId: Option<int>, body: map<string, Json>)
    requires StoreInvariant(s)
    ensures StoreInvariant(UpdateOrderStep(s, menu, orderId, body).state)
  {
    if orderId.Some? && FindOrderIndex(s.orders, orderId.value).Some? {
      FindOrderIndexFirst(s.orders, orderId.value);
      var k := FindOrderIndex(s.orders, orderId.value).value;
      CheckedTotalOutcome(body, menu);
      match CheckedTotal(body, menu)
      case Failure(_) =>
      case Success(total) =>
        ReplaceKeepsInvariant(s, k, Order(orderId.value, body["customer_name"], body["items"].elems, total));
    }
  }

  /** Deleting removes exactly the order carrying the id, and nothing else. */
  lemma DeleteRemovesOnlyThatId(s: DbState, id: int)
    requires StoreInvariant(s)
    ensures DeleteOrderStep(s, Some(id)).state.orders == WithoutId(s.orders, id)
  {
    FindOrderIndexFirst(s.orders, id);
    match FindOrderIndex(s.orders, id)
    case None =>
      WithoutIdAbsent(s.orders, id);
    case Some(k) =>
      WithoutIdSplit(s.orders, k);
  }

  /** Around the one order carrying its id, filtering that id keeps everything else. */
  lemma {:induction false} WithoutIdSplit(orders: seq<Order>, k: nat)
    requires k < |orders|
    requires forall i, j :: 0 <= i < j < |orders| ==> orders[i].id < orders[j].id
    ensures WithoutId(orders, orders[k].id) == orders[..k] + orders[k + 1..]
  {
    var id := orders[k].id;
    var tail := orders[1..];
    if k == 0 {
      assert forall i :: 0 <= i < |tail| ==> tail[i] == orders[i + 1];
      WithoutIdAbsent(tail, id);
    } else {
      assert tail[k - 1] == orders[k];
      WithoutIdSplit(tail, k - 1);
      assert orders[..k] == [orders[0]] + tail[..k - 1];
      assert orders[k + 1..] == tail[k..];
    }
  }

  /** A second DELETE of the same id answers 404 and changes nothing. */
  lemma DeleteTwiceNotFound(s: DbState, id: int)
    requires StoreInvariant(s)
    ensures var once := DeleteOrderStep(s, Some(id));
            DeleteOrderStep(once.state, Some(id)) == Step(once.state, OrderNotFound(id))
  {
    DeleteRemovesOnlyThatId(s, id);
    WithoutIdOmits(s.orders, id);
    FindOrderIndexFirst(DeleteOrderStep(s, Some(id)).state.orders, id);
  }

  lemma {:induction false} WithoutIdOmits(orders: seq<Order>, id: int)
    ensures !HasId(WithoutId(orders, id), id)
  {
    if orders != [] {
      WithoutIdOmits(orders[1..], id);
      if orders[0].id != id {
        var rest := WithoutId(orders[1..], id);
        assert forall i :: 1 <= i < |[orders[0]] + rest| ==> ([orders[0]] + rest)[i] == rest[i - 1];
      }
    }
  }

  /** A created order is found again under the id the response carries. */
  lemma CreateThenFind(s: DbState, menu: seq<MenuEntry>, body: map<string, Json>)
    requires StoreInvariant(s)
    requires CreateOrderStep(s, menu, body).response.Created?
    ensures var step := CreateOrderStep(s, menu, body);
            FindOrderIndex(step.state.orders, step.response.id) == Some(|s.orders|)
  {
    var step := CreateOrderStep(s, menu, body);
    CreateOrderOutcome(s, menu, body);
    CreatePreservesInvariant(s, menu, body);
    FindOrderIndexUnique(step.state, |s.orders|);
  }

  /** An updated order is found again under its id, holding what the response carries. */
  lemma UpdateThenFind(s: DbState, menu: seq<MenuEntry>, id: int, body: map<string, Json>)
    requires StoreInvariant(s)
    requires UpdateOrderStep(s, menu, Some(id), body).response.Updated?
    ensures var step := UpdateOrderStep(s, menu, Some(id), body);
            exists k :: 0 <= k < |step.state.orders| &&
                        FindOrderIndex(step.state.orders, id) == Some(k) &&
                        step.state.orders[k] == step.response.order
  {
    var step := UpdateOrderStep(s, menu, Some(id), body);
    UpdateOrderOutcome(s, menu, Some(id), body);
    UpdatePreservesInvariant(s, menu, Some(id), body);
    var k :| 0 <= k < |s.orders| && s.orders[k].id == id && step.state.orders == s.orders[k := step.response.order];
    FindOrderIndexUnique(step.state, k);
  }

  /** Updating an id that is not stored answers 404 even for a body that creation would reject as invalid. */
  lemma UpdateLooksUpBeforeValidating(s: DbState, menu: seq<MenuEntry>, id: int, body: map<string, Json>)
    requires !HasId(s.orders, id)
    requires OrderCheck(body).Collected? && OrderCheck(body).errors != []
    ensures UpdateOrderStep(s, menu, Some(id), body) == Step(s, OrderNotFound(id))
    ensures CreateOrderStep(s, menu, body) == Step(s, ValidationFailed(OrderCheck(body).errors))
  {
    CheckedTotalRejectsInvalid(body, menu);
    FindOrderIndexFirst(s.orders, id);
  }

  // ---------------------------------------------------------------------------
  // The store itself.

  /** `db`: the orders and the next order id change; the seeded menu and `nextMenuItemId` never do. */
  class Db {
    var orders: seq<Order>
    var nextOrderId: int
    const menuItems: seq<MenuEntry>
    const nextMenuItemId: int

    constructor ()
      ensures State() == InitialState && Valid()
      ensures menuItems == SeedMenu && nextMenuItemId == 3
    {
      orders := [];
      nextOrderId := 1;
      menuItems := SeedMenu;
      nextMenuItemId := 3;
    }

    function State(): DbState
      reads this
    {
      DbState(orders, nextOrderId)
    }

    predicate Valid()
      reads this
    {
      StoreInvariant(State())
    }

    /** GET /v1/orders. */
    method GetOrders() returns (response: Response)
      ensures response == OrderList(orders)
    {
      response := OrderList(orders);
    }

    /** GET /v1/menu. */
    method GetMenu() returns (response: Response)
      ensures response == MenuList(menuItems)
    {
      response := MenuList(menuItems);
    }

    /** GET /v1/menu/:menuId. */
    method GetMenuItem(menuId: Option<int>) returns (response: Response)
      ensures response == MenuItemLookup(menuItems, menuId)
    {
      if menuId.None? {
        return MenuItemNotFound(None);
      }
      var menuItem := FindMenuEntry(menuItems, menuId.value as real);
      if menuItem.None? {
        return MenuItemNotFound(menuId);
      }
      response := MenuItemFound(menuItem.value);
    }

    /** POST /v1/orders. */
    method PostOrder(body: map<string, Json>) returns (response: Response)
      requires Valid()
      modifies this
      ensures Valid()
      ensures Step(State(), response) == CreateOrderStep(old(State()), menuItems, body)
    {
      CreatePreservesInvariant(State(), menuItems, body);
      var total := ValidateAndPrice(body, menuItems);
      if total.Failure? {
        return total.error;
      }
      var newOrder := Order(nextOrderId, body["customer_name"], body["items"].elems, total.value);
      nextOrderId := nextOrderId + 1;
      orders := orders + [newOrder];
      response := Created(newOrder.id);
    }

    /** DELETE /v1/orders/:orderId. */
    method DeleteOrder(orderId: Option<int>) returns (response: Response)
      requires Valid()
      modifies this
      ensures Valid()
      ensures Step(State(), response) == DeleteOrderStep(old(State()), orderId)
    {
      DeletePreservesInvariant(State(), orderId);
      if orderId.None? {
        return OrderIdNotANumber;
      }
      var orderIndex := IndexOfOrder(orders, orderId.value);
      if orderIndex == -1 {
        return OrderNotFound(orderId.value);
      }
      orders := orders[..orderIndex] + orders[orderIndex + 1..];
      response := Deleted;
    }

    /** PUT /v1/orders/:orderId. */
    method PutOrder(orderId: Option<int>, body: map<string, Json>) returns (response: Response)
      requires Valid()
      modifies this
      ensures Valid()
      ensures Step(State(), response) == UpdateOrderStep(old(State()), menuItems, orderId, body)
    {
      UpdatePreservesInvariant(State(), menuItems, orderId, body);
      if orderId.None? {
        return OrderIdNotANumber;
      }
      var orderIndex := IndexOfOrder(orders, orderId.value);
      if orderIndex == -1 {
        return OrderNotFound(orderId.value);
      }
      var total := ValidateAndPrice(body, menuItems);
      if total.Failure? {
        return total.error;
      }
      var updatedOrder := Order(orderId.value, body["customer_name"], body["items"].elems, total.value);
      orders := orders[orderIndex := updatedOrder];
      response := Updated(updatedOrder);
    }
  }

  /** `validateOrder` followed by the pricing loop, as both POST and PUT run them. */
  method ValidateAndPrice(body: map<string, Json>, menu: seq<MenuEntry>) returns (total: Result<real, Response>)
    ensures total == CheckedTotal(body, menu)
  {
    var checked := ValidateOrder(body);
    if checked.Threw? {
      return Failure(InternalError(checked.error));
    }
    if checked.errors != [] {
      return Failure(ValidationFailed(checked.errors));
    }
    OrderCheckEmptyIff(body);
    var priced := PriceItems(LinesOf(body["items"].elems), menu);
    if priced.MissingMenuItem? {
      return Failure(UnknownMenuItem(priced.menuItemId));
    }
    total := Success(priced.amount);
  }

  /** `orders.findIndex(o => o.id === id)`: the first index carrying the id, or -1. */
  method IndexOfOrder(orders: seq<Order>, id: int) returns (index: int)
    ensures -1 <= index < |orders|
    ensures index == -1 <==> FindOrderIndex(orders, id).None?
    ensures index != -1 ==> FindOrderIndex(orders, id) == Some(index)
  {
    FindOrderIndexFirst(orders, id);
    index := 0;
    while index < |orders|
      invariant 0 <= index <= |orders|
      invariant forall j :: 0 <= j < index ==> orders[j].id != id
    {
      if orders[index].id == id {
        return;
      }
      index := index + 1;
    }
    index := -1;
  }
}
