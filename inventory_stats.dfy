/** The four summary figures above the grid (src/App.tsx, `totalItems`,
    `outOfStock`, `lowStock` and `inventory.length`), always computed over the
    whole, unfiltered inventory. */
module InventoryStats {
  import opened Items
  import opened SeqFilter
  import opened Text
  import opened InventoryCard
  import opened InventoryFilter

  /** The test the out-of-stock counter filters with. */
  predicate CountedOutOfStock(item: InventoryItem)
  {
    item.quantity == 0
  }

  /** The test the low-stock counter filters with. */
  predicate CountedLowStock(item: InventoryItem)
  {
    item.quantity > 0 && item.quantity <= item.reorderLevel
  }

  /** `inventory.reduce((sum, item) => sum + item.quantity, 0)`, folding from the left. */
  function TotalItems(inv: seq<InventoryItem>): (n: int)
    ensures NonNegativeQuantities(inv) ==> n >= 0
    ensures NonNegativeQuantities(inv) ==> forall x :: x in inv ==> x.quantity <= n
  {
    if inv == [] then 0
    else
      var init := inv[..|inv| - 1];
      assert forall x :: x in init ==> x in inv;
      TotalItems(init) + inv[|inv| - 1].quantity
  }

  /** The number of items with quantity zero. */
  function OutOfStockCount(inv: seq<InventoryItem>): (n: nat)
    ensures n <= |inv|
    ensures n == 0 <==> forall x :: x in inv ==> x.quantity != 0
  {
    var r := Filter(inv, CountedOutOfStock);
    if r != [] then
      assert r[0] in r;
      |r|
    else
      |r|
  }

  /** The number of items with a positive quantity at or below the reorder level. */
  function LowStockCount(inv: seq<InventoryItem>): (n: nat)
    ensures n <= |inv|
    ensures n == 0 <==> forall x :: x in inv ==> !(0 < x.quantity <= x.reorderLevel)
  {
    var r := Filter(inv, CountedLowStock);
    if r != [] then
      assert r[0] in r;
      |r|
    else
      |r|
  }

  /** The four figures the header shows. */
  datatype Statistics = Statistics(totalProducts: nat, totalItems: int, lowStock: nat, outOfStock: nat)

  /** The figures for an inventory: no item is counted both low and out of
      stock, so the two counters never exceed the number of products. */
  function Stats(inv: seq<InventoryItem>): (st: Statistics)
    ensures st.totalProducts == |inv|
    ensures st.outOfStock + st.lowStock <= st.totalProducts
    ensures NonNegativeQuantities(inv) ==> st.totalItems >= 0
  {
    FilterCountDisjoint(inv, CountedOutOfStock, CountedLowStock);
    Statistics(|inv|, TotalItems(inv), LowStockCount(inv), OutOfStockCount(inv))
  }

  /** The total of two inventories placed one after the other is the sum of their totals. */
  lemma {:induction false} TotalItemsAppend(a: seq<InventoryItem>, b: seq<InventoryItem>)
    ensures TotalItems(a + b) == TotalItems(a) + TotalItems(b)
  {
    if b == [] {
      assert a + b == a;
    } else {
      var init := b[..|b| - 1];
      assert (a + b)[..|a + b| - 1] == a + init;
      TotalItemsAppend(a, init);
    }
  }

  /** The callback selecting the items whose card shows status `s`. */
  function StatusIs(s: StockStatus): InventoryItem -> bool
  {
    (item: InventoryItem) => Classify(item.quantity, item.reorderLevel) == s
  }

  /** The out-of-stock counter counts the cards labelled "Out of Stock"; for
      non-negative quantities the low-stock counter counts those labelled "Low Stock". */
  lemma {:induction false} CountersAgreeWithCards(inv: seq<InventoryItem>)
    ensures OutOfStockCount(inv) == |Filter(inv, StatusIs(OutOfStock))|
    ensures NonNegativeQuantities(inv) ==> LowStockCount(inv) == |Filter(inv, StatusIs(LowStock))|
  {
    FilterCongruent(inv, CountedOutOfStock, StatusIs(OutOfStock));
    if NonNegativeQuantities(inv) {
      FilterCongruent(inv, CountedLowStock, StatusIs(LowStock));
    }
  }

  /** The counters equal the number of items the grid shows with an empty
      search, category "all" and stock filter "out" or "low". */
  lemma CountersAgreeWithFilter(inv: seq<InventoryItem>)
    ensures OutOfStockCount(inv) == |FilteredInventory(inv, "", "all", "out")|
    ensures LowStockCount(inv) == |FilteredInventory(inv, "", "all", "low")|
  {
    forall x | x in inv
      ensures MatchesSearch(x, "")
    {
      IncludesEmpty(ToLower(x.name));
    }
    FilterCongruent(inv, CountedOutOfStock, FilterTest("", "all", "out"));
    FilterCongruent(inv, CountedLowStock, FilterTest("", "all", "low"));
  }

  /** With non-negative quantities every item is out of stock, low or in stock,
      so the two counters and the in-stock items add up to the product count. */
  lemma {:induction false} CountersPartitionInventory(inv: seq<InventoryItem>)
    requires NonNegativeQuantities(inv)
    ensures OutOfStockCount(inv) + LowStockCount(inv) + |Filter(inv, StatusIs(InStock))| == |inv|
  {
    FilterCountPartition(inv, StatusIs(OutOfStock), StatusIs(LowStock), StatusIs(InStock));
    CountersAgreeWithCards(inv);
  }

  /** Items at (0, 5), (3, 5) and (10, 5): 3 products, 13 units, 1 low, 1 out. */
  lemma StatsScenario()
    ensures Stats([InventoryItem("a", "A", "Meat", 0, 0, "", 5),
                   InventoryItem("b", "B", "Meat", 3, 0, "", 5),
                   InventoryItem("c", "C", "Meat", 10, 0, "", 5)])
      == Statistics(3, 13, 1, 1)
  {
    var a, b, c := InventoryItem("a", "A", "Meat", 0, 0, "", 5),
                   InventoryItem("b", "B", "Meat", 3, 0, "", 5),
                   InventoryItem("c", "C", "Meat", 10, 0, "", 5);
    var inv := [a, b, c];
    assert inv[..2] == [a, b] && [a, b][..1] == [a] && [a][..0] == [];
    assert TotalItems([a]) == 0 && TotalItems([a, b]) == 3 && TotalItems(inv) == 13;
    assert inv[1..] == [b, c] && [b, c][1..] == [c] && [c][1..] == [];
    assert Filter([c], CountedOutOfStock) == [] && Filter([c], CountedLowStock) == [];
    assert Filter([b, c], CountedOutOfStock) == [] && Filter([b, c], CountedLowStock) == [b];
    assert Filter(inv, CountedOutOfStock) == [a] && Filter(inv, CountedLowStock) == [b];
  }
}
