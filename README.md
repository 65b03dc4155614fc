# Coffee-shop ordering API: a Dafny model

This project models the order and menu logic of a small coffee-shop API that exists in two forms.

**The Express server** (`server/server.js`) keeps everything in memory:

- `db` holds the orders, a seeded menu of two items and the counters.
- `validateOrder` collects error messages for a request body.
- A pricing loop totals an order's lines against the menu and aborts at the first unknown item.
- The routes create orders (push), replace them in place and delete them (splice).
- Further routes list orders and the menu and look up a menu item by id.

**The Spring service** (`java_example/...`) has these parts:

- A list-backed `MenuService` with an id counter that starts at 1.
- A `MenuItem` object, whose bean-validation annotations declare its constraints.
- The sealed `Promotion` type, with the variants "discount" and "bogo".
- The `Modifier` class.
- `GlobalExceptionHandler`, which turns each exception kind into an `Error(code, message)` body.

The modules follow the source files:

| module | file | models |
|---|---|---|
| `OrderValidation` | `order_validation.dfy` | `validateOrder`. It is an imperative method pushing onto one list, proved equal to a pure rule function, and the rules are stated declaratively. |
| `OrderPricing` | `order_pricing.dfy` | The seeded menu, the menu lookup and the pricing loop. The loop is proved against Σ price × quantity. |
| `OrderServer` | `order_server.dfy` | The order routes, first as pure transitions over the store's state. The class `Db` updates its fields in place, and each of its methods is proved to make the transition of its route. |
| `JavaErrors` | `java_errors.dfy` | Java exceptions as values, `null`-able strings, and the `Error` body. |
| `Promotions` | `promotion.dfy` | The sealed promotion type, its tag mapping and its `@NotNull` fields. |
| `Modifiers` | `modifier.dfy` | The modifier class, how it is read from JSON, and its constraints. |
| `MenuItems` | `menu_item.dfy` | `ItemSize`, the menu item's constraints, the order of their violations, and the `MenuItem` class with its setters. |
| `MenuServices` | `menu_service.dfy` | `MenuService` as a class over a list of `MenuItem` objects and an id counter. |
| `ExceptionHandler` | `exception_handler.dfy` | The five handlers as one function from exception to `Error` body. |

**How values are represented:**

- JSON values are the datatype `Json`.
- A request body is a `map<string, Json>`. A JSON array body has no own named properties, so it behaves like the empty map.
- Numbers are `real`.
- A Java `null` is `None`.
- An id from a path parameter arrives already parsed, as `Option<int>`, where `None` stands for `NaN`.

The validator is modelled with JavaScript's own semantics, including the three ways its code can throw:

- `hasOwnProperty` called on a `null` item;
- `hasOwnProperty` hidden by a JSON key of that name;
- `length` read on a `null` customer_name.

A throw escapes the route and becomes a 500.

Some behaviour of the code may surprise a reader. The model follows the code in each of these deliberately:

- `updateMenuItem` overwrites only the name, description and price of the stored item. It is not a wholesale replace, and the service itself validates nothing.
- An order line whose item is not on the menu is answered 400 (`Menu item with ID x not found`), not 404.
- `menu_item_id` may be any JavaScript number, and `quantity` any number ≥ 1. Neither has to be an integer.
- A customer_name that is a number or a boolean has an undefined `length`, so it passes validation.
- The menu item's `size`, `extraItems`, `modifiers` and `promotion` are `@NotNull`, so they are required rather than optional.
- The contents of modifiers and of the promotion are not validated, because the fields carry no `@Valid`.
- A modifier's `name` and `options` are declared `required = true`, but Jackson does not enforce that for properties bound to fields. A missing property is read as `null`, and `@NotNull` then reports it.

## Model

| member | source | states |
|---|---|---|
| OrderValidation.NameCheck | server/server.js:71-75 | An absent customer_name gives "required". A string outside 3–50 characters gives the length error. A `null` throws. A number or boolean passes. At most one error is produced. |
| OrderValidation.TotalPriceCheck | server/server.js:100-104 | A total_price is checked only when it is supplied. It never throws and gives at most one error, and none exactly when it is absent or a number ≥ 0. |
| OrderValidation.CheckItem | server/server.js:84-97 | The `forEach` callback for one item gives exactly the item rule's outcome. |
| OrderValidation.ItemCheckErrors | server/server.js:84-97 | One item adds at most one menu_item_id error and at most one quantity error. Each is an item error carrying the item's zero-based index. |
| OrderValidation.ItemCheckEmptyIff | server/server.js:84-97 | An item adds no error and does not throw exactly when it is an object without a shadowing `hasOwnProperty` key, with a numeric menu_item_id and a numeric quantity ≥ 1. |
| OrderValidation.PushItemErrors | server/server.js:84-97 | The loop pushing each item's errors onto the list gives the errors so far followed by every item's errors in index order. It stops at the first item that throws. |
| OrderValidation.ThrowPersists | server/server.js:84-97 | Once an item has thrown, the outcome of the later items no longer matters. |
| OrderValidation.CleanItemsAreClean | server/server.js:84-97 | When the items report nothing, no single item reports anything. |
| OrderValidation.CleanItemsMakeClean | server/server.js:84-97 | When no single item reports anything, the items report nothing. |
| OrderValidation.ItemsUpToEmptyIff | server/server.js:84-97 | The per-item checks report nothing exactly when every line is acceptable. |
| OrderValidation.ItemsUpToItemErrors | server/server.js:84-97 | The items of an n-element array give at most 2n errors. Every one is an item error whose index is below n. |
| OrderValidation.ItemsCheckPrecedence | server/server.js:77-98 | The items rule gives "required", else "must be an array", else "at least one item". Per-item errors appear only for a non-empty array. |
| OrderValidation.ValidateOrder | server/server.js:67-107 | The imperative validator returns exactly the three rules' errors in order, or the error it throws. |
| OrderValidation.OrderCheckEmptyIff | server/server.js:67-107 | The validator returns no errors and does not throw exactly when the body meets every rule. |
| OrderValidation.MissingNameAndItemsBothReported | server/server.js:67-107 | The rules are independent. A body lacking both customer_name and items gets both errors, followed by the total_price error if there is one. |
| OrderValidation.MissingNameAndItemsMessages | server/server.js:71-78 | A body with neither customer_name, items nor total_price gets exactly the texts "customer_name is required" and "items is required", in that order. |
| OrderValidation.AndThenAssociative | server/server.js:67-107 | Appending the rules' errors to one list does not depend on how the rules are grouped. |
| OrderValidation.AndThenEmptyIff | server/server.js:67-107 | Two checks in sequence report nothing exactly when both report nothing. |
| OrderValidation.ItemMessageLabelled | server/server.js:87 | Every per-item message starts with `Item ${index}: `. |
| OrderPricing.FindMenuEntryFirst | server/server.js:134 | `menu.find` finds nothing exactly when no entry has the id. Otherwise it finds the first entry that has it. |
| OrderPricing.LinesOf | server/server.js:133-141 | An order's lines in order, one per item: each carries the item's menu_item_id and quantity, the two numbers the loop reads. |
| OrderPricing.PriceItems | server/server.js:131-142 | The pricing loop returns the outcome of its iterations: the running total, or the first id that is not on the menu. |
| OrderPricing.MissingPersists | server/server.js:135-140 | After an unknown id, later lines do not change the outcome. |
| OrderPricing.SumAppend | server/server.js:141 | The reference sum of the lines with one more line added is the old sum plus that line's price × quantity. |
| OrderPricing.PriceUpToIsSum | server/server.js:131-142 | While every line resolves, the running total equals Σ price × quantity over the lines read so far. |
| OrderPricing.FirstUnresolved | server/server.js:133-140 | Some line is unresolved exactly when there is a first one. |
| OrderPricing.PriceOutcome | server/server.js:131-142 | The loop yields a total exactly when every line's item is on the menu, and that total is Σ price × quantity. Otherwise it names the id of the first line whose item is missing. |
| OrderPricing.SeedMenuExamples | server/server.js:131-142 | On the seeded menu, two espressos and a cappuccino cost 8.50, and id 99 aborts the loop. |
| OrderServer.FindOrderIndexFirst | server/server.js:173 | `orders.findIndex` is -1 exactly when no order has the id. Otherwise it is the first index carrying the id. |
| OrderServer.IndexOfOrder | server/server.js:173 | The imperative search returns -1 or an index in range, agreeing with `findIndex`. |
| OrderServer.FindOrderIndexUnique | server/server.js:173 | In a store whose ids increase, each stored order is found at its own index. |
| OrderServer.BodyLines | server/server.js:133 | A validated body has as many lines as items. |
| OrderServer.ValidateAndPrice | server/server.js:119-142 | Validation followed by pricing gives the checked total or the rejecting response. |
| OrderServer.CheckedTotalOutcome | server/server.js:119-142 | A body is accepted exactly when it passes validation and every item is on the menu. Its total is then Σ price × quantity. |
| OrderServer.CheckedTotalRejection | server/server.js:123-140 | A rejected body is answered 400, or 500 exactly when validation threw. |
| OrderServer.CheckedTotalRejectsInvalid | server/server.js:123-129 | A body with validation errors is answered with exactly those errors, whatever the menu. |
| OrderServer.CheckedTotalNamesFirstUnknownItem | server/server.js:133-140 | A valid body is answered with the menu_item_id of its first line whose item is not on the menu. |
| OrderServer.MenuItemLookup | server/server.js:256-268 | GET /v1/menu/:menuId finds an entry of the menu carrying the id exactly when one exists. Otherwise it gives 404. |
| OrderServer.CreateOrderOutcome | server/server.js:116-155 | Creation succeeds exactly for a valid body whose items are all on the menu. Success stores {old counter, name, items, Σ price × quantity} at the end, returns that id and advances the counter by 1. Any rejection leaves the store as it was. |
| OrderServer.DeleteOrderOutcome | server/server.js:157-185 | A NaN id gives 400 and an absent id gives 404, each changing nothing. A present id removes one order and keeps the counter. |
| OrderServer.UpdateOrderOutcome | server/server.js:187-249 | A NaN id gives 400 and an absent id gives 404. Otherwise the update succeeds exactly for a valid, fully priced body: the order at the id's index is replaced by {same id, new name, new items, new total}, and the length and counter stay the same. Every failure changes nothing. |
| OrderServer.AppendKeepsInvariant | server/server.js:144-151 | Appending an order under the counter, then advancing it, keeps ids positive, increasing and below the counter. |
| OrderServer.RemoveKeepsInvariant | server/server.js:182 | `splice(k, 1)` keeps ids positive, increasing and below the counter. |
| OrderServer.ReplaceKeepsInvariant | server/server.js:245 | Replacing an order by one with the same id keeps the invariant. |
| OrderServer.CreatePreservesInvariant | server/server.js:116-155 | Creation preserves the store invariant. |
| OrderServer.DeletePreservesInvariant | server/server.js:157-185 | Deletion preserves the store invariant. |
| OrderServer.UpdatePreservesInvariant | server/server.js:187-249 | Update preserves the store invariant. |
| OrderServer.WithoutIdAbsent | server/server.js:173-180 | Filtering out an id that no order carries keeps every order. |
| OrderServer.WithoutIdSplit | server/server.js:182 | With increasing ids, filtering out the id of the order at k is the same as splicing out position k. |
| OrderServer.DeleteRemovesOnlyThatId | server/server.js:173-184 | Deleting an id leaves exactly the orders not carrying it, in their relative order. |
| OrderServer.WithoutIdOmits | server/server.js:173-184 | After filtering out an id, no order carries it. |
| OrderServer.DeleteTwiceNotFound | server/server.js:173-184 | A second delete of the same id answers 404 and changes nothing. |
| OrderServer.CreateThenFind | server/server.js:144-154 | The created order is found again, at the end, under the id the response returned. |
| OrderServer.UpdateThenFind | server/server.js:238-248 | The updated order is found again under its id, holding what the response carried. |
| OrderServer.UpdateLooksUpBeforeValidating | server/server.js:205-223 | For an absent id, update answers 404 even for a body that creation rejects as invalid. |
| OrderServer.Db.constructor | server/server.js:21-55 | The store starts with no orders, counter 1, the two seeded menu items and next menu id 3. |
| OrderServer.Db.GetOrders | server/server.js:111-114 | GET /v1/orders answers the stored orders. |
| OrderServer.Db.GetMenu | server/server.js:252-254 | GET /v1/menu answers the seeded menu. |
| OrderServer.Db.GetMenuItem | server/server.js:256-268 | The imperative GET /v1/menu/:menuId gives the lookup's answer. |
| OrderServer.Db.PostOrder | server/server.js:116-155 | POST /v1/orders updates the fields exactly as the create transition says and keeps the invariant. |
| OrderServer.Db.DeleteOrder | server/server.js:157-185 | DELETE /v1/orders/:orderId updates the fields exactly as the delete transition says and keeps the invariant. |
| OrderServer.Db.PutOrder | server/server.js:187-249 | PUT /v1/orders/:orderId updates the fields exactly as the update transition says and keeps the invariant. |
| MenuServices.FirstIdIndexFirst | java_example/src/main/java/dev/dxheroes/service/MenuService.java:29-31 | The stream's `findFirst` finds nothing exactly when no item has the id. Otherwise it finds the first that does. |
| MenuServices.LookupOutcome | java_example/src/main/java/dev/dxheroes/service/MenuService.java:22-33 | `null` gives IllegalArgumentException "Menu ID cannot be null". An id ≤ 0 gives "Menu ID must be a positive number" before any search. A positive id gives the first item carrying it, or NOT_FOUND "Menu item not found". |
| MenuServices.IdsOf | java_example/src/main/java/dev/dxheroes/service/MenuService.java:30 | The ids of the stored items, one per item, in order. |
| MenuServices.MenuService.constructor | java_example/src/main/java/dev/dxheroes/service/MenuService.java:15-16 | The service starts with an empty list and the counter at 1. |
| MenuServices.MenuService.GetAllMenuItems | java_example/src/main/java/dev/dxheroes/service/MenuService.java:18-20 | Returns the stored items in insertion order. |
| MenuServices.MenuService.GetMenuItemById | java_example/src/main/java/dev/dxheroes/service/MenuService.java:22-33 | The imperative search throws exactly what the lookup throws. Otherwise it returns the stored item the lookup selects. |
| MenuServices.MenuService.CreateMenuItem | java_example/src/main/java/dev/dxheroes/service/MenuService.java:35-39 | Sets the item's id to the old counter and nothing else on it. Increments the counter by exactly 1, appends the item, and returns that same item. Ids stay strictly ascending when the item was not already stored. |
| MenuServices.MenuService.UpdateMenuItem | java_example/src/main/java/dev/dxheroes/service/MenuService.java:41-49 | A null, non-positive or absent id throws the lookup's exception and changes nothing. Otherwise the stored item gets the given name, description and price; everything else keeps its value. The list, the counter and the other items are unchanged, and the stored item is returned. |
| MenuItems.ParseSize | java_example/src/main/java/dev/dxheroes/dto/MenuItem.java:11-15 | A name parsed to a size is that size's name. |
| MenuItems.ParseSizeName | java_example/src/main/java/dev/dxheroes/dto/MenuItem.java:11-15 | Every size reads back from its name. Exactly the three names Small, Medium and Large are sizes. |
| MenuItems.NameViolations | java_example/src/main/java/dev/dxheroes/dto/MenuItem.java:21-24 | The name has at most one violation, and none exactly when it is non-null with 3–50 characters. |
| MenuItems.PriceViolations | java_example/src/main/java/dev/dxheroes/dto/MenuItem.java:30-33 | The price has at most one violation, and none exactly when it is non-null and ≥ 0. |
| MenuItems.ExtraItemsViolations | java_example/src/main/java/dev/dxheroes/dto/MenuItem.java:39-42 | extraItems has at most one violation, and none exactly when it is non-null with at most 5 entries. |
| MenuItems.Violations | java_example/src/main/java/dev/dxheroes/dto/MenuItem.java:18-50 | An item has no violation exactly when it meets every declared constraint. There are at most seven, one per constrained field. |
| MenuItems.AsFieldErrors | java_example/src/main/java/dev/dxheroes/dto/MenuItem.java:18-50 | Each violation becomes the field error carrying its field and default message, in order. |
| MenuItems.FieldErrors | java_example/src/main/java/dev/dxheroes/dto/MenuItem.java:18-50 | There are no field errors exactly when the item is valid. A null name is reported first, as "must not be null". |
| MenuItems.NestedValuesNotValidated | java_example/src/main/java/dev/dxheroes/dto/MenuItem.java:44-50 | Validation does not depend on the contents of non-null modifiers or a non-null promotion. |
| MenuItems.MenuItem.constructor | java_example/src/main/java/dev/dxheroes/dto/MenuItem.java:17-50 | A new item holds exactly the given field values. |
| MenuItems.MenuItem.SetId | java_example/src/main/java/dev/dxheroes/dto/MenuItem.java:56-58 | `setId(v)` changes the id to v and no other field. |
| MenuItems.MenuItem.SetName | java_example/src/main/java/dev/dxheroes/dto/MenuItem.java:64-66 | `setName(v)` changes the name to v and no other field. |
| MenuItems.MenuItem.SetDescription | java_example/src/main/java/dev/dxheroes/dto/MenuItem.java:72-74 | `setDescription(v)` changes the description to v and no other field. |
| MenuItems.MenuItem.SetPrice | java_example/src/main/java/dev/dxheroes/dto/MenuItem.java:80-82 | `setPrice(v)` changes the price to v and no other field. |
| Promotions.TypeTag | java_example/src/main/java/dev/dxheroes/dto/Promotion.java:8-12 | The tag is "discount" exactly for a discount and "bogo" exactly for a buy-one-get-one. |
| Promotions.Decode | java_example/src/main/java/dev/dxheroes/dto/Promotion.java:8-25 | A decoded promotion is the variant its `type` tag names. |
| Promotions.DecodeEncode | java_example/src/main/java/dev/dxheroes/dto/Promotion.java:8-25 | Reading back a written promotion gives the same promotion. |
| Promotions.UnknownTagRejected | java_example/src/main/java/dev/dxheroes/dto/Promotion.java:13 | The type is sealed, so any tag other than "discount" and "bogo" has no representation. |
| Promotions.MissingRequiredPropertyRejected | java_example/src/main/java/dev/dxheroes/dto/Promotion.java:15-25 | A missing `amount` or `description` is a decoding failure. |
| Promotions.Violations | java_example/src/main/java/dev/dxheroes/dto/Promotion.java:15-25 | A promotion has no violation exactly when its one field is non-null, and at most one violation otherwise. |
| Modifiers.Violations | java_example/src/main/java/dev/dxheroes/dto/Modifier.java:10-17 | A modifier has no violation exactly when its name is non-null and its options are non-null with at least one entry. There are at most two violations, and a null name is reported first. |
| Modifiers.StringElements | java_example/src/main/java/dev/dxheroes/dto/Modifier.java:14-17 | A decoded options list has one entry per JSON element: that element's text, or null for a JSON `null`. Any other element makes decoding fail. |
| Modifiers.Strings | java_example/src/main/java/dev/dxheroes/dto/Modifier.java:14-17 | Each option is written as a JSON string, or as `null` when it is null. |
| Modifiers.StringElementsOfStrings | java_example/src/main/java/dev/dxheroes/dto/Modifier.java:14-17 | Options written as JSON strings read back unchanged. |
| Modifiers.Decode | java_example/src/main/java/dev/dxheroes/dto/Modifier.java:9-17 | A decoded field is null exactly when its property is missing or `null`. Decoding fails exactly when a property has the wrong type, or an option is neither a string nor `null`. |
| Modifiers.MissingNameCaughtByValidation | java_example/src/main/java/dev/dxheroes/dto/Modifier.java:10-12 | An object with options but no name is read as a modifier with a null name, whose one violation is "name must not be null". |
| Modifiers.DecodeEncode | java_example/src/main/java/dev/dxheroes/dto/Modifier.java:10-17 | Reading back a written modifier gives the same modifier. |
| ExceptionHandler.ToLower | java_example/src/main/java/dev/dxheroes/controller/GlobalExceptionHandler.java:71 | Lowering keeps the length and lowers each character. |
| ExceptionHandler.IndexOfFinds | java_example/src/main/java/dev/dxheroes/controller/GlobalExceptionHandler.java:71 | The search returns a position where the text occurs. If it returns none, the text occurs nowhere from the start position on. |
| ExceptionHandler.Contains | java_example/src/main/java/dev/dxheroes/controller/GlobalExceptionHandler.java:71 | `contains` holds exactly when the text occurs at some position. |
| ExceptionHandler.HandleGeneric | java_example/src/main/java/dev/dxheroes/controller/GlobalExceptionHandler.java:64-80 | The status is 404 exactly when the message is non-null and its lowered form contains "not found". Otherwise it is 500. |
| ExceptionHandler.HandleStatus | java_example/src/main/java/dev/dxheroes/controller/GlobalExceptionHandler.java:18-80 | Statuses: a status exception keeps its own. Unreadable JSON and illegal arguments give 400. A validation failure gives 400 when it has a field error. Anything else gives 404 or 500, as the generic rule says. |
| ExceptionHandler.MessagesNameTheUri | java_example/src/main/java/dev/dxheroes/controller/GlobalExceptionHandler.java:18-28 | Status, illegal-argument and generic answers start with "[" + uri + "] ". |
| ExceptionHandler.OnlyFirstFieldErrorReported | java_example/src/main/java/dev/dxheroes/controller/GlobalExceptionHandler.java:41-51 | Field errors after the first do not change the answer. |
| ExceptionHandler.GenericStatusIgnoresCase | java_example/src/main/java/dev/dxheroes/controller/GlobalExceptionHandler.java:64-80 | Messages that lower to the same text get the same status. |
| ExceptionHandler.ServiceLookupFailures | java_example/src/main/java/dev/dxheroes/controller/GlobalExceptionHandler.java:53-62 | The service's lookup failures are answered as follows. A null id gives 400 "[uri] Invalid request: Menu ID cannot be null". A non-positive id gives 400 with its message. An absent positive id gives 404 "[uri] Menu item not found". |
| ExceptionHandler.NamelessMenuItemAnswer | java_example/src/main/java/dev/dxheroes/controller/GlobalExceptionHandler.java:41-51 | A menu item whose only violation is its missing name is answered 400 "Validation failed for field 'name': must not be null", whatever order the violations are reported in. |

## Left out

- Express and Spring plumbing is not modelled: body parsing, basic authentication, `app.listen`, routing, logging, and the `errorHandler` middleware. An exception thrown inside a route is modelled as the response `InternalError`, which has status 500.
- JSON serialisation and HTTP response writing are not modelled. Each route answers a `Response` value, and `Status` gives its code.
- The text of messages that embed an id (`Menu item with ID x not found`, `Order with ID x not found`) is not rendered. The responses carry the id instead.
- `parseInt` on path parameters is not modelled. The id arrives already parsed as `Option<int>`, with `None` for NaN.
- The check `!req.params.orderId` (`Order ID is required`) is not modelled, because Express never routes an empty path segment to these handlers.
- JavaScript numbers and Java `Double` are exact `real`s. Rounding of `price * quantity` is not modelled.
- `length` is counted in Unicode code points, not UTF-16 units.
- OrderValidation.NameCheck: an object's own `length` property that holds a string, an array or an object is treated as NaN. JavaScript would convert it to a number first.
- OrderPricing.PriceItems: the loop reads lines that were decoded up front from the validated items, not the JSON items one by one.
- The order counter and the menu id counter are unbounded. JavaScript's 2^53 limit and Java's `int` wrap-around are not modelled.
- `AtomicInteger` is modelled as a plain field. Concurrency is not modelled.
- Jackson's polymorphic deserialisation is modelled only as the `Decode`/`Encode` functions of promotions and modifiers. Coercions such as a number for a string are not modelled.
- Bean Validation reports violations in an unspecified order. The model uses declaration order.
- `@Min(1)` on the options list has no standard validator for a list. It is modelled as "at least one option".
- ExceptionHandler.ToLower lowers ASCII letters only. Java's `toLowerCase` is locale-dependent and covers all of Unicode.
- MenuItem getters are plain field reads of the class, so they have no members of their own.
- `MenuController` is not part of this model.
- `Error.java` is modelled only as the `ErrorBody` datatype.
