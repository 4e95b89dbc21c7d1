/**
 * Order processing against a stock table.
 *
 * For each requested item, in order, the first stock entry with the same id
 * is looked up.  When it holds at least the ordered quantity, the item is
 * accepted, its price times the quantity is added to the running total and
 * the entry's quantity is decreased in place.  An item with too little stock
 * or with no entry at all is skipped.
 *
 * The stock table is an array updated in place; the specification of the
 * method is the function Process, which replays the same steps on values.
 */
module Inventory {
  import opened Common

  /** An item id; ids are compared for equality only. */
  datatype ItemId = ItemId(name: string)

  datatype RequestedItem = RequestedItem(id: ItemId, price: real)

  datatype StockEntry = StockEntry(id: ItemId, quantity: int)

  /** The accepted items, the running total and the stock table after some of the requests. */
  datatype Outcome = Outcome(items: seq<RequestedItem>, total: real, stock: seq<StockEntry>)

  /** The index of the first entry at or after `j` whose id is `id`. */
  function FindFrom(stock: seq<StockEntry>, id: ItemId, j: nat): (r: Option<nat>)
    requires j <= |stock|
    ensures r.Some? ==> j <= r.value < |stock|
    decreases |stock| - j
  {
    if j == |stock| then None
    else if stock[j].id == id then Some(j)
    else FindFrom(stock, id, j + 1)
  }

  /** FindFrom finds the first entry with the id at or after `j`, and nothing when there is none. */
  lemma {:induction false} FindFromIsFirst(stock: seq<StockEntry>, id: ItemId, j: nat)
    requires j <= |stock|
    ensures var r := FindFrom(stock, id, j);
            && (r.Some? ==> stock[r.value].id == id && forall k :: j <= k < r.value ==> stock[k].id != id)
            && (r.None? <==> forall k :: j <= k < |stock| ==> stock[k].id != id)
    decreases |stock| - j
  {
    if j < |stock| && stock[j].id != id {
      FindFromIsFirst(stock, id, j + 1);
    }
  }

  /** The index of the first entry whose id is `id`, if any. */
  function FirstMatch(stock: seq<StockEntry>, id: ItemId): Option<nat> {
    FindFrom(stock, id, 0)
  }

  /** One request: accepted and charged when its first matching entry holds at least `quantityOrdered`. */
  function Step(o: Outcome, item: RequestedItem, quantityOrdered: int): Outcome {
    match FirstMatch(o.stock, item.id)
    case None => o
    case Some(j) =>
      if o.stock[j].quantity >= quantityOrdered then
        Outcome(o.items + [item],
                o.total + item.price * quantityOrdered as real,
                o.stock[j := o.stock[j].(quantity := o.stock[j].quantity - quantityOrdered)])
      else o
  }

  /** The outcome of processing `requested` in order, starting from an empty order and `stock`. */
  function Process(requested: seq<RequestedItem>, stock: seq<StockEntry>, quantityOrdered: int): Outcome {
    if requested == [] then Outcome([], 0.0, stock)
    else Step(Process(requested[..|requested| - 1], stock, quantityOrdered), requested[|requested| - 1], quantityOrdered)
  }

  /** The step of a request whose first matching entry is at `j`. */
  lemma StepAt(o: Outcome, item: RequestedItem, quantityOrdered: int, j: nat)
    requires FirstMatch(o.stock, item.id) == Some(j)
    ensures j < |o.stock|
    ensures Step(o, item, quantityOrdered)
         == if o.stock[j].quantity >= quantityOrdered
            then Outcome(o.items + [item], o.total + item.price * quantityOrdered as real,
                         o.stock[j := o.stock[j].(quantity := o.stock[j].quantity - quantityOrdered)])
            else o
  {
  }

  lemma ProcessSnoc(requested: seq<RequestedItem>, i: nat, stock: seq<StockEntry>, quantityOrdered: int)
    requires i < |requested|
    ensures Process(requested[..i + 1], stock, quantityOrdered)
         == Step(Process(requested[..i], stock, quantityOrdered), requested[i], quantityOrdered)
  {
    assert requested[..i + 1][..i] == requested[..i];
  }

  /**
   * Processes the requests against `inventory`, decreasing the quantities of
   * the entries it draws from, and returns the accepted items and their total.
   */
  method ProcessInventory(requested: seq<RequestedItem>, inventory: array<StockEntry>, quantityOrdered: int)
    returns (items: seq<RequestedItem>, total: real)
    modifies inventory
    ensures Outcome(items, total, inventory[..]) == Process(requested, old(inventory[..]), quantityOrdered)
  {
    ghost var stock0 := inventory[..];
    items := [];
    total := 0.0;
    var i := 0;
    while i < |requested|
      invariant 0 <= i <= |requested|
      invariant Outcome(items, total, inventory[..]) == Process(requested[..i], stock0, quantityOrdered)
    {
      var current := requested[i];
      ghost var before := Outcome(items, total, inventory[..]);
      ghost var found := false;
      var j := 0;
      while j < inventory.Length
        invariant 0 <= j <= inventory.Length
        invariant Outcome(items, total, inventory[..]) == before
        invariant FindFrom(before.stock, current.id, j) == FirstMatch(before.stock, current.id)
        invariant !found
      {
        if current.id == inventory[j].id {
          assert FirstMatch(before.stock, current.id) == Some(j);
          if inventory[j].quantity >= quantityOrdered {
            items := items + [current];
            total := total + current.price * quantityOrdered as real;
            inventory[j] := inventory[j].(quantity := inventory[j].quantity - quantityOrdered);
          }
          found := true;
          StepAt(before, current, quantityOrdered, j);
          break;
        }
        j := j + 1;
      }
      if !found {
        assert FirstMatch(before.stock, current.id) == None;
      }
      assert Outcome(items, total, inventory[..]) == Step(before, current, quantityOrdered);
      ProcessSnoc(requested, i, stock0, quantityOrdered);
      i := i + 1;
    }
    assert requested[..i] == requested;
  }

  // ---------------------------------------------------------------------------
  // Properties

  /** The sum of `price * quantityOrdered` over `items`. */
  function Charge(items: seq<RequestedItem>, quantityOrdered: int): real {
    if items == [] then 0.0
    else Charge(items[..|items| - 1], quantityOrdered) + items[|items| - 1].price * quantityOrdered as real
  }

  /** The sum of the quantities of `stock`. */
  function TotalStock(stock: seq<StockEntry>): int {
    if stock == [] then 0 else stock[0].quantity + TotalStock(stock[1..])
  }

  lemma ChargeAppend(items: seq<RequestedItem>, item: RequestedItem, quantityOrdered: int)
    ensures Charge(items + [item], quantityOrdered) == Charge(items, quantityOrdered) + item.price * quantityOrdered as real
  {
    assert (items + [item])[..|items|] == items;
  }

  /** The total is the price of every accepted item times the ordered quantity. */
  lemma {:induction false} TotalIsCharge(requested: seq<RequestedItem>, stock: seq<StockEntry>, quantityOrdered: int)
    ensures var o := Process(requested, stock, quantityOrdered);
            o.total == Charge(o.items, quantityOrdered)
  {
    if requested != [] {
      var prev := Process(requested[..|requested| - 1], stock, quantityOrdered);
      TotalIsCharge(requested[..|requested| - 1], stock, quantityOrdered);
      var item := requested[|requested| - 1];
      var o := Step(prev, item, quantityOrdered);
      assert Process(requested, stock, quantityOrdered) == o;
      if o != prev {
        ChargeAppend(prev.items, item, quantityOrdered);
        assert o.items == prev.items + [item];
        assert o.total == prev.total + item.price * quantityOrdered as real;
      }
    }
  }

  /** One request changes at most the first entry with its id, and only by the ordered quantity. */
  lemma StepEffect(o: Outcome, item: RequestedItem, quantityOrdered: int)
    ensures var o' := Step(o, item, quantityOrdered);
            && |o'.stock| == |o.stock|
            && (forall k :: 0 <= k < |o.stock| && Some(k) != FirstMatch(o.stock, item.id) ==> o'.stock[k] == o.stock[k])
            && (FirstMatch(o.stock, item.id).None? ==> o' == o)
            && forall j :: 0 <= j < |o.stock| && FirstMatch(o.stock, item.id) == Some(j) ==>
                 && o'.stock[j].id == o.stock[j].id
                 && (o.stock[j].quantity >= quantityOrdered ==>
                       o'.stock[j].quantity == o.stock[j].quantity - quantityOrdered && o'.items == o.items + [item])
                 && (o.stock[j].quantity < quantityOrdered ==> o' == o)
  {
  }

  /** A request whose id is not in the stock table changes nothing. */
  lemma {:induction false} UnmatchedIsNoOp(requested: seq<RequestedItem>, stock: seq<StockEntry>, quantityOrdered: int, item: RequestedItem)
    requires forall k :: 0 <= k < |stock| ==> stock[k].id != item.id
    ensures Process(requested + [item], stock, quantityOrdered) == Process(requested, stock, quantityOrdered)
  {
    var all := requested + [item];
    assert all[..|all| - 1] == requested;
    var prev := Process(requested, stock, quantityOrdered);
    SameIds(requested, stock, quantityOrdered);
    assert forall k :: 0 <= k < |prev.stock| ==> prev.stock[k].id != item.id;
    FindFromIsFirst(prev.stock, item.id, 0);
  }

  /** The table keeps its length and its ids; only quantities change. */
  lemma {:induction false} SameIds(requested: seq<RequestedItem>, stock: seq<StockEntry>, quantityOrdered: int)
    ensures var s := Process(requested, stock, quantityOrdered).stock;
            |s| == |stock| && forall k :: 0 <= k < |s| ==> s[k].id == stock[k].id
  {
    if requested != [] {
      var prev := Process(requested[..|requested| - 1], stock, quantityOrdered);
      SameIds(requested[..|requested| - 1], stock, quantityOrdered);
      StepEffect(prev, requested[|requested| - 1], quantityOrdered);
    }
  }

  lemma {:induction false} TotalStockUpdate(stock: seq<StockEntry>, j: nat, v: int)
    requires j < |stock|
    ensures TotalStock(stock[j := stock[j].(quantity := v)]) == TotalStock(stock) - stock[j].quantity + v
  {
    var s' := stock[j := stock[j].(quantity := v)];
    if j > 0 {
      assert s'[1..] == stock[1..][j - 1 := stock[j].(quantity := v)];
      TotalStockUpdate(stock[1..], j - 1, v);
    } else {
      assert s'[1..] == stock[1..];
    }
  }

  /** Stock is conserved: what leaves the table is the ordered quantity for every accepted item. */
  lemma {:induction false} StockConservation(requested: seq<RequestedItem>, stock: seq<StockEntry>, quantityOrdered: int)
    ensures var o := Process(requested, stock, quantityOrdered);
            TotalStock(stock) == TotalStock(o.stock) + |o.items| * quantityOrdered
  {
    if requested != [] {
      var prev := Process(requested[..|requested| - 1], stock, quantityOrdered);
      StockConservation(requested[..|requested| - 1], stock, quantityOrdered);
      var item := requested[|requested| - 1];
      match FirstMatch(prev.stock, item.id)
      case None =>
      case Some(j) =>
        if prev.stock[j].quantity >= quantityOrdered {
          TotalStockUpdate(prev.stock, j, prev.stock[j].quantity - quantityOrdered);
          assert (|prev.items| + 1) * quantityOrdered == |prev.items| * quantityOrdered + quantityOrdered;
        }
    }
  }

  /** Every entry is either untouched or was last decreased from at least the ordered quantity, so it is not negative. */
  lemma {:induction false} NeverNegative(requested: seq<RequestedItem>, stock: seq<StockEntry>, quantityOrdered: int)
    ensures var s := Process(requested, stock, quantityOrdered).stock;
            |s| == |stock| && forall k :: 0 <= k < |s| ==> s[k] == stock[k] || s[k].quantity >= 0
  {
    SameIds(requested, stock, quantityOrdered);
    if requested != [] {
      var prev := Process(requested[..|requested| - 1], stock, quantityOrdered);
      NeverNegative(requested[..|requested| - 1], stock, quantityOrdered);
      StepEffect(prev, requested[|requested| - 1], quantityOrdered);
    }
  }

  /** The accepted items are the requested ones, in request order, some possibly skipped. */
  lemma {:induction false} ItemsAreSubsequence(requested: seq<RequestedItem>, stock: seq<StockEntry>, quantityOrdered: int)
    ensures IsSubsequence(Process(requested, stock, quantityOrdered).items, requested)
  {
    if requested != [] {
      var init := requested[..|requested| - 1];
      var item := requested[|requested| - 1];
      var prev := Process(init, stock, quantityOrdered);
      ItemsAreSubsequence(init, stock, quantityOrdered);
      assert init + [item] == requested;
      if Step(prev, item, quantityOrdered).items == prev.items {
        SubsequenceOfPrefix(prev.items, init, item);
      } else {
        SubsequenceExtend(prev.items, init, item);
      }
    }
  }

  // ---------------------------------------------------------------------------
  // The embedded test cases

  /** Prices 10/20/30 against stock 5/3/1, two of each: two items, total 60, stock 3/1/1. */
  lemma BasicOrder()
    ensures var o := Process([RequestedItem(ItemId("item1"), 10.0), RequestedItem(ItemId("item2"), 20.0), RequestedItem(ItemId("item3"), 30.0)],
                             [StockEntry(ItemId("item1"), 5), StockEntry(ItemId("item2"), 3), StockEntry(ItemId("item3"), 1)], 2);
            && |o.items| == 2 && o.total == 60.0
            && o.stock == [StockEntry(ItemId("item1"), 3), StockEntry(ItemId("item2"), 1), StockEntry(ItemId("item3"), 1)]
  {
    var r := [RequestedItem(ItemId("item1"), 10.0), RequestedItem(ItemId("item2"), 20.0), RequestedItem(ItemId("item3"), 30.0)];
    var s0 := [StockEntry(ItemId("item1"), 5), StockEntry(ItemId("item2"), 3), StockEntry(ItemId("item3"), 1)];
    var s1 := [StockEntry(ItemId("item1"), 3), StockEntry(ItemId("item2"), 3), StockEntry(ItemId("item3"), 1)];
    var s2 := [StockEntry(ItemId("item1"), 3), StockEntry(ItemId("item2"), 1), StockEntry(ItemId("item3"), 1)];
    assert r[..0] == [] && r[..1][..0] == [] && r[..2][..1] == r[..1] && r[..3] == r;
    assert FirstMatch(s0, ItemId("item1")) == Some(0);
    assert FirstMatch(s1, ItemId("item2")) == Some(1);
    assert FirstMatch(s2, ItemId("item3")) == Some(2);
    assert Process(r[..1], s0, 2) == Outcome([r[0]], 20.0, s1);
    assert Process(r[..2], s0, 2) == Outcome([r[0], r[1]], 60.0, s2);
  }

  /** A single item with too little stock: no items, total 0. */
  lemma InsufficientStock()
    ensures var o := Process([RequestedItem(ItemId("item1"), 10.0)], [StockEntry(ItemId("item1"), 1)], 2);
            o.items == [] && o.total == 0.0 && o.stock == [StockEntry(ItemId("item1"), 1)]
  {
    assert FirstMatch([StockEntry(ItemId("item1"), 1)], ItemId("item1")) == Some(0);
  }

  /** A known item and an unknown one, one of each: one item, total 10. */
  lemma UnknownItem()
    ensures var o := Process([RequestedItem(ItemId("item1"), 10.0), RequestedItem(ItemId("itemNonExistent"), 20.0)], [StockEntry(ItemId("item1"), 5)], 1);
            |o.items| == 1 && o.total == 10.0
  {
    var r := [RequestedItem(ItemId("item1"), 10.0), RequestedItem(ItemId("itemNonExistent"), 20.0)];
    var s0 := [StockEntry(ItemId("item1"), 5)];
    assert r[..1] == [r[0]] && r[..1][..0] == [];
    assert FirstMatch(s0, ItemId("item1")) == Some(0);
    assert Process(r[..1], s0, 1) == Outcome([r[0]], 10.0, [StockEntry(ItemId("item1"), 4)]);
    assert "itemNonExistent" != "item1";
    assert FirstMatch([StockEntry(ItemId("item1"), 4)], ItemId("itemNonExistent")) == None;
  }
}
