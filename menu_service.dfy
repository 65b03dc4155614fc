/**
 * The Spring menu service: a list of menu item objects and an id counter
 * that starts at 1. Lookup rejects a null or non-positive id before
 * searching; create stamps the item with the counter and appends it; update
 * overwrites only the name, description and price of the stored item.
 */
module MenuServices {
  import opened Wrappers
  import opened JavaErrors
  import opened MenuItems

  const NullIdMessage: string := "Menu ID cannot be null"
  const NonPositiveIdMessage: string := "Menu ID must be a positive number"
  const NotFoundReason: string := "Menu item not found"
  const NotFoundStatus: int := 404

  /** The position of the first id equal to `id`. */
  function FirstIdIndex(ids: seq<int>, id: int): Option<nat> {
    if ids == [] then None
    else if ids[0] == id then Some(0)
    else
      match FirstIdIndex(ids[1..], id)
      case None => None
      case Some(k) => Some(k + 1)
  }

  lemma {:induction false} FirstIdIndexFirst(ids: seq<int>, id: int)
    ensures FirstIdIndex(ids, id).None? <==> id !in ids
    ensures FirstIdIndex(ids, id).Some? ==>
              && FirstIdIndex(ids, id).value < |ids|
              && ids[FirstIdIndex(ids, id).value] == id
              && id !in ids[..FirstIdIndex(ids, id).value]
  {
    if ids != [] && ids[0] != id {
      FirstIdIndexFirst(ids[1..], id);
      assert ids == [ids[0]] + ids[1..];
      if FirstIdIndex(ids, id).Some? {
        var k := FirstIdIndex(ids[1..], id).value;
        assert ids[..k + 1] == [ids[0]] + ids[1..][..k];
      }
    }
  }

  /**
   * `getMenuItemById` over the stored ids: the index of the item it returns,
   * or the exception it throws.
   */
  function Lookup(ids: seq<int>, menuId: Option<int>): Result<nat, JavaException> {
    match menuId
    case None => Failure(IllegalArgument(Some(NullIdMessage)))
    case Some(id) =>
      if id <= 0 then Failure(IllegalArgument(Some(NonPositiveIdMessage)))
      else
        match FirstIdIndex(ids, id)
        case None => Failure(ResponseStatus(NotFoundStatus, Some(NotFoundReason)))
        case Some(k) => Success(k)
  }

  /**
   * A null id and a non-positive id are rejected as illegal arguments before
   * any search; a positive id gives the first item carrying it, or 404
   * "Menu item not found" when none does.
   */
  lemma LookupOutcome(ids: seq<int>, menuId: Option<int>)
    ensures menuId.None? ==> Lookup(ids, menuId) == Failure(IllegalArgument(Some(NullIdMessage)))
    ensures menuId.Some? && menuId.value <= 0 ==>
              Lookup(ids, menuId) == Failure(IllegalArgument(Some(NonPositiveIdMessage)))
    ensures menuId.Some? && menuId.value > 0 && menuId.value !in ids ==>
              Lookup(ids, menuId) == Failure(ResponseStatus(NotFoundStatus, Some(NotFoundReason)))
    ensures Lookup(ids, menuId).Success? <==> menuId.Some? && menuId.value > 0 && menuId.value in ids
    ensures Lookup(ids, menuId).Success? ==>
              && Lookup(ids, menuId).value < |ids|
              && ids[Lookup(ids, menuId).value] == menuId.value
              && menuId.value !in ids[..Lookup(ids, menuId).value]
  {
    if menuId.Some? {
      FirstIdIndexFirst(ids, menuId.value);
    }
  }

  /** The ids of items whose ids are all set. */
  function IdsOf(items: seq<MenuItem>): (r: seq<int>)
    reads items
    requires forall i :: 0 <= i < |items| ==> items[i].id.Some?
    ensures |r| == |items|
    ensures forall i :: 0 <= i < |items| ==> r[i] == items[i].id.value
  {
    if items == [] then [] else [items[0].id.value] + IdsOf(items[1..])
  }

  /** Ids increase strictly along the list. */
  predicate Ascending(ids: seq<int>) {
    forall i, j :: 0 <= i < j < |ids| ==> ids[i] < ids[j]
  }

  class MenuService {
    var menuItems: seq<MenuItem>
    var idGenerator: int

    /** Every stored item carries an id the counter has already handed out. */
    predicate Valid()
      reads this, menuItems
    {
      && 1 <= idGenerator
      && forall i :: 0 <= i < |menuItems| ==> menuItems[i].id.Some? && 1 <= menuItems[i].id.value < idGenerator
    }

    function Ids(): seq<int>
      reads this, menuItems
      requires Valid()
    {
      IdsOf(menuItems)
    }

    constructor ()
      ensures menuItems == [] && idGenerator == 1
      ensures Valid()
    {
      menuItems := [];
      idGenerator := 1;
    }

    /** A copy of the list: the same items in the same order. */
    method GetAllMenuItems() returns (items: seq<MenuItem>)
      ensures items == menuItems
    {
      items := menuItems;
    }

    method GetMenuItemById(menuId: Option<int>) returns (r: Result<MenuItem, JavaException>)
      requires Valid()
      ensures Lookup(Ids(), menuId).Failure? ==> r == Failure(Lookup(Ids(), menuId).error)
      ensures Lookup(Ids(), menuId).Success? ==>
                r.Success? && Lookup(Ids(), menuId).value < |menuItems| &&
                r.value == menuItems[Lookup(Ids(), menuId).value]
    {
      LookupOutcome(Ids(), menuId);
      if menuId.None? {
        return Failure(IllegalArgument(Some(NullIdMessage)));
      }
      var id := menuId.value;
      if id <= 0 {
        return Failure(IllegalArgument(Some(NonPositiveIdMessage)));
      }
      FirstIdIndexFirst(Ids(), id);
      var index := 0;
      while index < |menuItems|
        invariant 0 <= index <= |menuItems|
        invariant id !in Ids()[..index]
      {
        if menuItems[index].id == Some(id) {
          assert Ids()[..index + 1] == Ids()[..index] + [id];
          return Success(menuItems[index]);
        }
        assert Ids()[..index + 1] == Ids()[..index] + [Ids()[index]];
        index := index + 1;
      }
      assert Ids()[..index] == Ids();
      return Failure(ResponseStatus(NotFoundStatus, Some(NotFoundReason)));
    }

    method CreateMenuItem(menuItem: MenuItem) returns (r: MenuItem)
      requires Valid()
      modifies this, menuItem
      ensures Valid()
      ensures r == menuItem
      ensures menuItem.Data() == old(menuItem.Data()).(id := Some(old(idGenerator)))
      ensures idGenerator == old(idGenerator) + 1
      ensures menuItems == old(menuItems) + [menuItem]
      ensures old(Ascending(Ids())) && menuItem !in old(menuItems) ==> Ascending(Ids())
    {
      menuItem.SetId(Some(idGenerator));
      idGenerator := idGenerator + 1;
      menuItems := menuItems + [menuItem];
      r := menuItem;
    }

    method UpdateMenuItem(menuId: Option<int>, menuItem: MenuItem) returns (r: Result<MenuItem, JavaException>)
      requires Valid()
      modifies menuItems
      ensures Valid() && unchanged(this)
      ensures old(Lookup(Ids(), menuId)).Failure? ==>
                && r == Failure(old(Lookup(Ids(), menuId)).error)
                && forall m :: m in menuItems ==> unchanged(m)
      ensures old(Lookup(Ids(), menuId)).Success? ==>
                && r.Success?
                && old(Lookup(Ids(), menuId)).value < |menuItems|
                && r.value == menuItems[old(Lookup(Ids(), menuId)).value]
                && r.value.Data() == old(r.value.Data()).(name := old(menuItem.name),
                                                           description := old(menuItem.description),
                                                           price := old(menuItem.price))
                && forall m :: m in menuItems && m != r.value ==> unchanged(m)
    {
      var existing := GetMenuItemById(menuId);
      if existing.Failure? {
        return existing;
      }
      var item := existing.value;
      var name, description, price := menuItem.name, menuItem.description, menuItem.price;
      item.SetName(name);
      item.SetDescription(description);
      item.SetPrice(price);
      r := existing;
    }
  }
}
