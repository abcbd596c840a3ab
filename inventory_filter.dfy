/** The filtered view of the inventory (src/App.tsx, `filteredInventory`): a name
    search, a category choice and a stock band, combined with AND in one
    order-preserving pass. */
module InventoryFilter {
  import opened Items
  import opened SeqFilter
  import opened Text
  import opened InventoryCard

  /** Case-insensitive substring search on the name. */
  function MatchesSearch(item: InventoryItem, searchQuery: string): (b: bool)
    ensures searchQuery == "" ==> b
    ensures b ==> |searchQuery| <= |item.name|
  {
    Includes(ToLower(item.name), ToLower(searchQuery))
  }

  /** "all" accepts every category; anything else must be equal. */
  function MatchesCategory(item: InventoryItem, selectedCategory: string): (b: bool)
    ensures selectedCategory == "all" ==> b
    ensures selectedCategory != "all" ==> (b <==> item.category == selectedCategory)
  {
    selectedCategory == "all" || item.category == selectedCategory
  }

  /** The stock test: "all", or the band named "out", "low" or "in". For a
      non-negative quantity the bands are those of the card's status ("in" also
      needs a non-negative reorder level: with quantity 0 and reorder level -1
      the item is both "out" and "in"). */
  function MatchesStock(item: InventoryItem, stockFilter: string): (b: bool)
    ensures stockFilter !in {"all", "out", "low", "in"} ==> !b
    ensures stockFilter == "all" ==> b
    ensures item.quantity >= 0 && stockFilter == "out" ==>
      (b <==> Classify(item.quantity, item.reorderLevel) == OutOfStock)
    ensures item.quantity >= 0 && stockFilter == "low" ==>
      (b <==> Classify(item.quantity, item.reorderLevel) == LowStock)
    ensures item.quantity >= 0 && item.reorderLevel >= 0 && stockFilter == "in" ==>
      (b <==> Classify(item.quantity, item.reorderLevel) == InStock)
  {
    stockFilter == "all"
    || (stockFilter == "out" && item.quantity == 0)
    || (stockFilter == "low" && item.quantity > 0 && item.quantity <= item.reorderLevel)
    || (stockFilter == "in" && item.quantity > item.reorderLevel)
  }

  /** The three tests together. */
  predicate Matches(item: InventoryItem, searchQuery: string, selectedCategory: string, stockFilter: string)
  {
    MatchesSearch(item, searchQuery) && MatchesCategory(item, selectedCategory) && MatchesStock(item, stockFilter)
  }

  /** The filter callback for one choice of settings. */
  function FilterTest(searchQuery: string, selectedCategory: string, stockFilter: string): InventoryItem -> bool
  {
    (item: InventoryItem) => Matches(item, searchQuery, selectedCategory, stockFilter)
  }

  /** `filteredInventory`: the items passing all three tests, in inventory order. */
  function FilteredInventory(inv: seq<InventoryItem>, searchQuery: string, selectedCategory: string, stockFilter: string)
    : (r: seq<InventoryItem>)
    ensures Subsequence(r, inv)
    ensures forall x :: x in r ==> x in inv && Matches(x, searchQuery, selectedCategory, stockFilter)
    ensures forall x :: x in inv && Matches(x, searchQuery, selectedCategory, stockFilter) ==> x in r
    ensures forall x :: x in inv ==>
      multiset(r)[x] == if Matches(x, searchQuery, selectedCategory, stockFilter) then multiset(inv)[x] else 0
  {
    Filter(inv, FilterTest(searchQuery, selectedCategory, stockFilter))
  }

  /** With the initial settings (empty search, "all", "all") every item is shown. */
  lemma DefaultFiltersShowAll(inv: seq<InventoryItem>)
    ensures FilteredInventory(inv, "", "all", "all") == inv
  {
    forall x | x in inv
      ensures FilterTest("", "all", "all")(x)
    {
      IncludesEmpty(ToLower(x.name));
    }
    FilterKeepsAll(inv, FilterTest("", "all", "all"));
  }

  /** Filtering the filtered view again with the same settings changes nothing. */
  lemma FilteredInventoryIdempotent(inv: seq<InventoryItem>, searchQuery: string, selectedCategory: string, stockFilter: string)
    ensures var r := FilteredInventory(inv, searchQuery, selectedCategory, stockFilter);
      FilteredInventory(r, searchQuery, selectedCategory, stockFilter) == r
  {
    FilterIdempotent(inv, FilterTest(searchQuery, selectedCategory, stockFilter));
  }

  /** The search ignores the case of the query. */
  lemma SearchIgnoresQueryCase(item: InventoryItem, searchQuery: string)
    ensures MatchesSearch(item, ToLower(searchQuery)) == MatchesSearch(item, searchQuery)
  {
    ToLowerIdempotent(searchQuery);
  }

  /** For a non-negative quantity and reorder level exactly one of the bands
      "out", "low" and "in" holds. */
  lemma StockBandsPartition(item: InventoryItem)
    requires item.quantity >= 0 && item.reorderLevel >= 0
    ensures MatchesStock(item, "out") || MatchesStock(item, "low") || MatchesStock(item, "in")
    ensures !(MatchesStock(item, "out") && MatchesStock(item, "low"))
    ensures !(MatchesStock(item, "out") && MatchesStock(item, "in"))
    ensures !(MatchesStock(item, "low") && MatchesStock(item, "in"))
  {
  }

  /** A search for "bot" finds "Water Bottle". */
  lemma SearchFindsBottle()
    ensures MatchesSearch(InventoryItem("8", "Water Bottle", "Sports", 92, 2499, "", 50), "bot")
  {
    var query := ToLower("bot");
    assert query[0] == 'b' && query[1] == 'o' && query[2] == 't';
    var bottle := ToLower("Water Bottle");
    assert bottle[6] == 'b' && bottle[7] == 'o' && bottle[8] == 't';
    assert OccursAt(bottle, query, 6);
    IncludesIffOccurs(bottle, query);
  }

  /** A search for "bot" does not find "Desk Lamp". */
  lemma SearchSkipsLamp()
    ensures !MatchesSearch(InventoryItem("7", "Desk Lamp", "Home", 8, 4599, "", 12), "bot")
  {
    var query := ToLower("bot");
    assert query[0] == 'b';
    var lamp := ToLower("Desk Lamp");
    assert forall i :: !OccursAt(lamp, query, i);
    IncludesIffOccurs(lamp, query);
  }
}
