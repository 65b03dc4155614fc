/**
 * The menu the Express server is seeded with, its lookup by id, and the loop
 * that prices an order's lines against it: every line's item is looked up in
 * turn, the first unknown id aborts the whole computation, and otherwise the
 * total is the sum of price times quantity.
 */
module OrderPricing {
  import opened Wrappers
  import opened JsonValues

  datatype MenuModifier = MenuModifier(name: string, options: seq<string>)

  /** A menu item as the server stores it; prices are exact reals. */
  datatype MenuEntry = MenuEntry(
    id: int,
    name: string,
    description: string,
    price: real,
    size: string,
    extraItems: seq<string>,
    modifiers: seq<MenuModifier>)

  /** The two items `db.menuItems` starts with; the server never changes them. */
  const SeedMenu: seq<MenuEntry> := [
    MenuEntry(1, "Espresso",
      "Strong coffee brewed by forcing hot water through finely-ground coffee beans",
      2.50, "Small", ["Extra Shot", "Whipped Cream"],
      [MenuModifier("Sugar", ["None", "Low", "Medium", "High"])]),
    MenuEntry(2, "Cappuccino",
      "Coffee drink with espresso, hot milk, and steamed milk foam",
      3.50, "Medium", ["Extra Shot", "Soy Milk", "Cinnamon"],
      [MenuModifier("Milk Type", ["Whole Milk", "Skim Milk", "Soy Milk", "Almond Milk"])])
  ]

  /** `menu.find(m => m.id === id)`: the first entry whose id equals the number `id`. */
  function FindMenuEntry(menu: seq<MenuEntry>, id: real): Option<MenuEntry>
  {
    if menu == [] then None
    else if menu[0].id as real == id then Some(menu[0])
    else FindMenuEntry(menu[1..], id)
  }

  /** The lookup finds nothing exactly when no entry has the id, and otherwise the first entry that has it. */
  lemma {:induction false} FindMenuEntryFirst(menu: seq<MenuEntry>, id: real)
    ensures FindMenuEntry(menu, id).None? <==> forall k :: 0 <= k < |menu| ==> menu[k].id as real != id
    ensures FindMenuEntry(menu, id).Some? ==>
              exists k :: 0 <= k < |menu| && menu[k] == FindMenuEntry(menu, id).value &&
                          menu[k].id as real == id &&
                          forall j :: 0 <= j < k ==> menu[j].id as real != id
  {
    if menu != [] && menu[0].id as real != id {
      FindMenuEntryFirst(menu[1..], id);
      if FindMenuEntry(menu, id).Some? {
        var k :| 0 <= k < |menu[1..]| && menu[1..][k] == FindMenuEntry(menu, id).value &&
                 menu[1..][k].id as real == id &&
                 forall j :: 0 <= j < k ==> menu[1..][j].id as real != id;
        assert menu[k + 1] == menu[1..][k];
        assert forall j :: 1 <= j < k + 1 ==> menu[j] == menu[1..][j - 1];
      }
    } else if menu != [] {
      assert menu[0] == FindMenuEntry(menu, id).value;
    }
  }

  /** An order line as validation leaves it: an object with numeric menu_item_id and quantity. */
  predicate IsLine(item: Json) {
    && item.JObj?
    && "menu_item_id" in item.props && item.props["menu_item_id"].JNum?
    && "quantity" in item.props && item.props["quantity"].JNum?
  }

  predicate AllLines(items: seq<Json>) {
    forall k :: 0 <= k < |items| ==> IsLine(items[k])
  }

  /** The two numbers the pricing loop reads from an order line. */
  datatype Line = Line(menuItemId: real, quantity: real)

  function LineOf(item: Json): Line
    requires IsLine(item)
  {
    Line(item.props["menu_item_id"].n, item.props["quantity"].n)
  }

  /** The lines of a validated order, in order. */
  function LinesOf(items: seq<Json>): (r: seq<Line>)
    requires AllLines(items)
    ensures |r| == |items|
    ensures forall k :: 0 <= k < |items| ==>
              r[k] == Line(items[k].props["menu_item_id"].n, items[k].props["quantity"].n)
  {
    if items == [] then [] else [LineOf(items[0])] + LinesOf(items[1..])
  }

  /** The pricing loop's outcome: the total, or the first menu_item_id not on the menu. */
  datatype Priced = Total(amount: real) | MissingMenuItem(menuItemId: real)

  /** The pricing loop after its first `n` iterations. */
  function PriceUpTo(lines: seq<Line>, menu: seq<MenuEntry>, n: nat): Priced
    requires n <= |lines|
  {
    if n == 0 then Total(0.0)
    else
      match PriceUpTo(lines, menu, n - 1)
      case MissingMenuItem(id) => MissingMenuItem(id)
      case Total(t) =>
        match FindMenuEntry(menu, lines[n - 1].menuItemId)
        case None => MissingMenuItem(lines[n - 1].menuItemId)
        case Some(entry) => Total(t + entry.price * lines[n - 1].quantity)
  }

  /** The pricing loop, accumulating `totalPrice` as the source does. */
  method PriceItems(lines: seq<Line>, menu: seq<MenuEntry>) returns (result: Priced)
    ensures result == PriceUpTo(lines, menu, |lines|)
  {
    var totalPrice := 0.0;
    var index := 0;
    while index < |lines|
      invariant 0 <= index <= |lines|
      invariant PriceUpTo(lines, menu, index) == Total(totalPrice)
    {
      var line := lines[index];
      var menuItem := FindMenuEntry(menu, line.menuItemId);
      if menuItem.None? {
        MissingPersists(lines, menu, index + 1, |lines|);
        return MissingMenuItem(line.menuItemId);
      }
      totalPrice := totalPrice + menuItem.value.price * line.quantity;
      index := index + 1;
    }
    return Total(totalPrice);
  }

  /** Once a line is missing from the menu, the loop has aborted for good. */
  lemma {:induction false} MissingPersists(lines: seq<Line>, menu: seq<MenuEntry>, i: nat, n: nat)
    requires i <= n <= |lines|
    requires PriceUpTo(lines, menu, i).MissingMenuItem?
    ensures PriceUpTo(lines, menu, n) == PriceUpTo(lines, menu, i)
  {
    if n > i {
      MissingPersists(lines, menu, i, n - 1);
    }
  }

  // ---------------------------------------------------------------------------
  // The reference: every line resolves, and the total is a sum over the lines.

  predicate Resolves(line: Line, menu: seq<MenuEntry>) {
    FindMenuEntry(menu, line.menuItemId).Some?
  }

  predicate AllResolve(lines: seq<Line>, menu: seq<MenuEntry>) {
    forall k :: 0 <= k < |lines| ==> Resolves(lines[k], menu)
  }

  /** One line's contribution: the menu price of its item times its quantity (nothing if it is not on the menu). */
  function LineTotal(line: Line, menu: seq<MenuEntry>): real {
    match FindMenuEntry(menu, line.menuItemId)
    case None => 0.0
    case Some(entry) => entry.price * line.quantity
  }

  /** Σ price × quantity over the lines. */
  function Sum(lines: seq<Line>, menu: seq<MenuEntry>): real {
    if lines == [] then 0.0 else LineTotal(lines[0], menu) + Sum(lines[1..], menu)
  }

  lemma {:induction false} SumAppend(lines: seq<Line>, line: Line, menu: seq<MenuEntry>)
    ensures Sum(lines + [line], menu) == Sum(lines, menu) + LineTotal(line, menu)
  {
    if lines != [] {
      assert (lines + [line])[1..] == lines[1..] + [line];
      SumAppend(lines[1..], line, menu);
    }
  }

  lemma {:induction false} PriceUpToIsSum(lines: seq<Line>, menu: seq<MenuEntry>, n: nat)
    requires n <= |lines|
    requires forall k :: 0 <= k < n ==> Resolves(lines[k], menu)
    ensures PriceUpTo(lines, menu, n) == Total(Sum(lines[..n], menu))
  {
    if n > 0 {
      PriceUpToIsSum(lines, menu, n - 1);
      assert lines[..n] == lines[..n - 1] + [lines[n - 1]];
      SumAppend(lines[..n - 1], lines[n - 1], menu);
    }
  }

  /**
   * The loop's outcome, against the reference: when every line's item is on
   * the menu the total is Σ price × quantity; otherwise the loop names the id
   * of the first line whose item is not.
   */
  lemma PriceOutcome(lines: seq<Line>, menu: seq<MenuEntry>)
    ensures AllResolve(lines, menu) ==> PriceUpTo(lines, menu, |lines|) == Total(Sum(lines, menu))
    ensures forall k :: 0 <= k < |lines| && !Resolves(lines[k], menu) &&
                        (forall j :: 0 <= j < k ==> Resolves(lines[j], menu)) ==>
              PriceUpTo(lines, menu, |lines|) == MissingMenuItem(lines[k].menuItemId)
    ensures PriceUpTo(lines, menu, |lines|).Total? <==> AllResolve(lines, menu)
  {
    if AllResolve(lines, menu) {
      PriceUpToIsSum(lines, menu, |lines|);
      assert lines[..|lines|] == lines;
    }
    forall k | 0 <= k < |lines| && !Resolves(lines[k], menu) &&
               (forall j :: 0 <= j < k ==> Resolves(lines[j], menu))
      ensures PriceUpTo(lines, menu, |lines|) == MissingMenuItem(lines[k].menuItemId)
    {
      PriceUpToIsSum(lines, menu, k);
      MissingPersists(lines, menu, k + 1, |lines|);
    }
    if !AllResolve(lines, menu) {
      var k := FirstUnresolved(lines, menu, |lines|);
    }
  }

  /** The first line, among the first `n`, whose item is not on the menu. */
  lemma {:induction false} FirstUnresolved(lines: seq<Line>, menu: seq<MenuEntry>, n: nat) returns (k: nat)
    requires n <= |lines|
    requires exists i :: 0 <= i < n && !Resolves(lines[i], menu)
    ensures k < n && !Resolves(lines[k], menu)
    ensures forall j :: 0 <= j < k ==> Resolves(lines[j], menu)
  {
    if forall i :: 0 <= i < n - 1 ==> Resolves(lines[i], menu) {
      k := n - 1;
    } else {
      k := FirstUnresolved(lines, menu, n - 1);
    }
  }

  /** Two espressos and a cappuccino against the seeded menu cost 8.50; an unknown id 99 aborts the loop. */
  lemma SeedMenuExamples()
    ensures PriceUpTo([Line(1.0, 2.0), Line(2.0, 1.0)], SeedMenu, 2) == Total(8.5)
    ensures PriceUpTo([Line(1.0, 1.0), Line(99.0, 1.0), Line(7.0, 1.0)], SeedMenu, 3) == MissingMenuItem(99.0)
  {
    var missing := [Line(1.0, 1.0), Line(99.0, 1.0), Line(7.0, 1.0)];
    assert PriceUpTo(missing, SeedMenu, 2) == MissingMenuItem(99.0);
  }
}
