/** The product card (src/components/inventory-card.tsx): the stock status it
    derives from an item, the low-stock alert badge and the owner-only actions. */
module InventoryCard {
  import opened Items

  /** The three stock bands a card can show. */
  datatype StockStatus = OutOfStock | LowStock | InStock

  /** The record `getStockStatus` returns: a label and three style classes. */
  datatype StatusStyle = StatusStyle(text: string, color: string, bgColor: string, borderColor: string)

  /** The band of a (quantity, reorder level) pair; the first matching rule wins. */
  function Classify(quantity: int, reorderLevel: int): (s: StockStatus)
    ensures s == OutOfStock <==> quantity == 0
    ensures s == LowStock <==> quantity != 0 && quantity <= reorderLevel
    ensures s == InStock <==> quantity != 0 && quantity > reorderLevel
  {
    if quantity == 0 then OutOfStock
    else if quantity <= reorderLevel then LowStock
    else InStock
  }

  /** The fixed label and colours of each band. */
  function StyleOf(s: StockStatus): (st: StatusStyle)
    ensures st.text == "Out of Stock" <==> s == OutOfStock
    ensures st.text == "Low Stock" <==> s == LowStock
    ensures st.text == "In Stock" <==> s == InStock
  {
    match s
    case OutOfStock => StatusStyle("Out of Stock", "text-red-600", "bg-red-50", "border-red-200")
    case LowStock => StatusStyle("Low Stock", "text-orange-600", "bg-orange-50", "border-orange-200")
    case InStock => StatusStyle("In Stock", "text-green-600", "bg-green-50", "border-green-200")
  }

  /** `getStockStatus()` for the card's item. */
  function GetStockStatus(item: InventoryItem): (st: StatusStyle)
    ensures st.text == "Out of Stock" <==> item.quantity == 0
    ensures st.text == "Low Stock" <==> item.quantity != 0 && item.quantity <= item.reorderLevel
    ensures st.text == "In Stock" <==> item.quantity != 0 && item.quantity > item.reorderLevel
    ensures st.color == "text-red-600" <==> item.quantity == 0
    ensures st.color == "text-orange-600" <==> item.quantity != 0 && item.quantity <= item.reorderLevel
    ensures st.color == "text-green-600" <==> item.quantity != 0 && item.quantity > item.reorderLevel
  {
    StyleOf(Classify(item.quantity, item.reorderLevel))
  }

  /** Whether the alert badge is drawn over the image: quantity at or below the reorder level. */
  function AlertBadgeShown(item: InventoryItem): (shown: bool)
    ensures item.reorderLevel >= 0 ==>
      (shown <==> Classify(item.quantity, item.reorderLevel) in {OutOfStock, LowStock})
  {
    item.quantity <= item.reorderLevel
  }

  /** What the card's two buttons ask the application to do. */
  datatype CardAction = EditRequest(item: InventoryItem) | DeleteRequest(id: string)

  /** The buttons a card offers: edit and delete for the owner, none for a visitor. */
  function CardActions(item: InventoryItem, isAuthenticated: bool): (actions: seq<CardAction>)
    ensures |actions| > 0 <==> isAuthenticated
    ensures forall a :: a in actions && a.EditRequest? ==> a.item == item
    ensures forall a :: a in actions && a.DeleteRequest? ==> a.id == item.id
    ensures isAuthenticated ==> EditRequest(item) in actions && DeleteRequest(item.id) in actions
  {
    if isAuthenticated then [EditRequest(item), DeleteRequest(item.id)] else []
  }
}
