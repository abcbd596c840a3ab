/** The inventory record shared by the whole application (src/App.tsx). */
module Items {

  /** One stocked product. `price` is kept as an integer number of cents and is
      never inspected by the logic modelled here. */
  datatype InventoryItem = InventoryItem(
    id: string,
    name: string,
    category: string,
    quantity: int,
    price: int,
    image: string,
    reorderLevel: int)

  /** The ids present in a collection. */
  function Ids(inv: seq<InventoryItem>): set<string>
  {
    set x | x in inv :: x.id
  }

  /** No two positions of the collection carry the same id. */
  predicate UniqueIds(inv: seq<InventoryItem>)
  {
    forall i, j :: 0 <= i < j < |inv| ==> inv[i].id != inv[j].id
  }

  /** Every quantity is non-negative (the form's `min="0"`, not enforced by code). */
  predicate NonNegativeQuantities(inv: seq<InventoryItem>)
  {
    forall x :: x in inv ==> x.quantity >= 0
  }
}
