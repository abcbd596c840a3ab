# Inventory state engine of the D&C Farms inventory app

A Dafny model of the logic inside the React inventory tracker: the stock
status a product card derives from quantity and reorder level, the filtered
grid view (name search, category, stock band), the four header statistics,
the owner-only add/edit/delete handlers with their login gate, and the
add/edit form's required-field check and one-field-at-a-time updates.

Modules, one per source component:

- `Items` (`items.dfy`): the `InventoryItem` record of `src/App.tsx`, the set of ids, the unique-id invariant.
- `SeqFilter` (`seq_filter.dfy`): `Array.prototype.filter` as `Filter`, with its order-preserving subsequence property and the counting lemmas its four uses in `App.tsx` need.
- `Text` (`text.dfy`): `toLowerCase` (ASCII) and `includes`, with `Includes` proved equal to the positional definition of a substring.
- `InventoryCard` (`inventory_card.dfy`): `getStockStatus`, the alert badge and the owner-only buttons.
- `InventoryFilter` (`inventory_filter.dfy`): the three tests of `filteredInventory` and the filtered view.
- `InventoryStats` (`inventory_stats.dfy`): total units, out-of-stock and low-stock counters.
- `InventoryStore` (`inventory_store.dfy`): delete-by-id and replace-by-id, and the class `InventoryApp` holding the component's state fields, with one method per handler.
- `EditModal` (`edit_modal.dfy`): the class `EditForm` with `handleChange` and `handleSubmit`.
- `Scenarios` (`scenarios.dfy`): action sequences across the app and the form, checked from the contracts alone.

The model follows the code where a stricter behaviour might be expected:

- Updating an id that no item carries is a silent no-op, not an error (`ReplaceById`).
- Delete and update act on every item carrying the id. With unique ids this is exactly one item (`RemoveById`).
- Required-field validation happens only in the form. `HandleSave` accepts whatever it is given.
- The card, the stock filter and the statistics each test the bands in their own way. A negative quantity at or below the reorder level gets "Low Stock" from the card, yet no stock filter band matches it. A negative quantity above the reorder level gets "In Stock" from the card and from the "in" band alike. With quantity 0 and a negative reorder level the item is both "out" and "in". So the card and the filter can disagree only when the quantity is negative, or zero with a negative reorder level. For non-negative quantity and reorder level they agree and the bands partition the items. The contracts state these conditions.
- The form's help text says the alert fires when quantity falls *below* the reorder level. The code alerts at or below it (`AlertBadgeShown`, `Classify`).

## Model

| member | source | states |
|---|---|---|
| `SeqFilter.Filter` | src/App.tsx:226-244 | the result keeps exactly the elements passing the test, each as many times as the input holds it, drops every other element entirely, never grows, and is an order-preserving subsequence of the input |
| `Text.LowerChar` | src/App.tsx:228-230 | a character outside 'A'..'Z' is returned unchanged; each of 'A'..'Z' becomes the lower-case letter 32 code points above it |
| `Text.ToLower` | src/App.tsx:228-230 | same length, each character lower-cased in place |
| `Text.ToLowerIdempotent` | src/App.tsx:228-230 | lower-casing twice is lower-casing once |
| `Text.Includes` | src/App.tsx:230 | the empty needle is contained in every string, and a contained needle is never longer than the haystack |
| `Text.IncludesIffOccurs` | src/App.tsx:227-230 | `includes` holds iff the needle occurs at some position of the haystack |
| `Text.IncludesEmpty` | src/App.tsx:227-230 | the empty query is contained in every name |
| `InventoryCard.Classify` | src/components/inventory-card.tsx:12-19 | Out of Stock iff quantity is 0; Low Stock iff quantity is non-zero and at most the reorder level; In Stock iff non-zero and above it, so exactly one holds |
| `InventoryCard.StyleOf` | src/components/inventory-card.tsx:14-18 | each band has its own fixed label |
| `InventoryCard.GetStockStatus` | src/components/inventory-card.tsx:12-19 | the card's label and colour are "Out of Stock"/red iff quantity 0, "Low Stock"/orange iff non-zero and at most the reorder level, "In Stock"/green otherwise |
| `InventoryCard.AlertBadgeShown` | src/components/inventory-card.tsx:32 | with a non-negative reorder level the badge is shown iff the status is Out of Stock or Low Stock |
| `InventoryCard.CardActions` | src/components/inventory-card.tsx:39-55 | buttons exist iff the viewer is authenticated; edit carries the card's item and delete the card's item id |
| `InventoryFilter.MatchesSearch` | src/App.tsx:227-230 | the empty query matches every item, and a matching query is never longer than the item's name |
| `InventoryFilter.MatchesCategory` | src/App.tsx:231-233 | "all" accepts every item; any other value accepts exactly the items whose category equals it |
| `InventoryFilter.MatchesStock` | src/App.tsx:234-241 | "all" accepts everything, a value outside all/out/low/in accepts nothing, and for non-negative quantity (and reorder level, for "in") each band accepts exactly the items whose card shows that status |
| `InventoryFilter.FilteredInventory` | src/App.tsx:226-244 | the view is an order-preserving subsequence of the inventory holding exactly the items that pass search, category and stock tests, each passing item as many times as the inventory holds it |
| `InventoryFilter.DefaultFiltersShowAll` | src/App.tsx:227-243 | with search "", category "all" and stock "all" the view is the whole inventory |
| `InventoryFilter.FilteredInventoryIdempotent` | src/App.tsx:226-244 | filtering the view again with the same settings returns it unchanged |
| `InventoryFilter.SearchIgnoresQueryCase` | src/App.tsx:227-230 | a query and its lower-cased form select the same items |
| `InventoryFilter.StockBandsPartition` | src/App.tsx:234-241 | for non-negative quantity and reorder level exactly one of out, low, in accepts an item |
| `InventoryFilter.SearchFindsBottle` | src/App.tsx:227-230 | the query "bot" matches "Water Bottle" |
| `InventoryFilter.SearchSkipsLamp` | src/App.tsx:227-230 | the query "bot" does not match "Desk Lamp" |
| `InventoryStats.TotalItems` | src/App.tsx:247-250 | with non-negative quantities the total is non-negative and at least every single item's quantity |
| `InventoryStats.OutOfStockCount` | src/App.tsx:251-253 | at most the number of products, and zero iff no item has quantity 0 |
| `InventoryStats.LowStockCount` | src/App.tsx:254-257 | at most the number of products, and zero iff no item has a positive quantity at or below its reorder level |
| `InventoryStats.Stats` | src/App.tsx:247-257 | total products is the inventory length, and out-of-stock plus low-stock never exceeds it |
| `InventoryStats.TotalItemsAppend` | src/App.tsx:247-250 | the unit total of two concatenated inventories is the sum of their totals |
| `InventoryStats.CountersAgreeWithCards` | src/App.tsx:251-257 | the out-of-stock counter counts cards labelled Out of Stock; with non-negative quantities the low-stock counter counts cards labelled Low Stock |
| `InventoryStats.CountersAgreeWithFilter` | src/App.tsx:251-257 | each counter equals the size of the view with empty search, category "all" and stock filter "out" or "low" |
| `InventoryStats.CountersPartitionInventory` | src/App.tsx:251-257 | with non-negative quantities, out-of-stock + low-stock + in-stock items = product count |
| `InventoryStats.StatsScenario` | src/App.tsx:247-257 | items at (0,5), (3,5), (10,5) give 3 products, 13 units, 1 low, 1 out |
| `InventoryStore.FilterKeepsUniqueIds` | src/App.tsx:292 | removing items from an inventory with unique ids leaves the ids unique |
| `InventoryStore.UniqueIdCount` | src/App.tsx:292 | with unique ids, one item carries a present id and none an absent one |
| `InventoryStore.RemoveAbsentId` | src/App.tsx:292 | deleting an id nobody carries leaves the inventory unchanged |
| `InventoryStore.RemoveById` | src/App.tsx:292 | delete keeps, in order, exactly the items with another id; an absent id changes nothing; ids stay unique, and with unique ids exactly one item goes |
| `InventoryStore.BlankItem` | src/App.tsx:265-273 | the add-mode record carries the given id, has blank name and category, and starts out of stock: only the "out" band accepts it |
| `InventoryStore.ReplaceById` | src/App.tsx:300-304 | length, order and ids are kept; matching positions become the updated item, others are untouched; an absent id changes nothing |
| `InventoryStore.AppendFreshKeepsUniqueIds` | src/App.tsx:298 | appending an item with an unused id keeps ids unique |
| `InventoryStore.AppendUpdatesStats` | src/App.tsx:298 | appending adds one product, its quantity to the unit total, and one to the counter of its band |
| `InventoryStore.InventoryApp.constructor` | src/App.tsx:148-160 | the initial state: given items, empty search, "all" filters, no edit in progress, signed out, no dialog, no error |
| `InventoryStore.InventoryApp.VisibleItems` | src/App.tsx:226-244 | the grid shows an order-preserving subsequence of the inventory holding exactly the items passing the current filters |
| `InventoryStore.InventoryApp.Summary` | src/App.tsx:247-257 | the header figures count all products, and the two stock counters never exceed that count |
| `InventoryStore.InventoryApp.SetSearchQuery` | src/App.tsx:150 | the search box sets the query |
| `InventoryStore.InventoryApp.SetSelectedCategory` | src/App.tsx:151-152 | the category picker sets the category |
| `InventoryStore.InventoryApp.SetStockFilter` | src/App.tsx:153 | the stock picker sets the stock filter |
| `InventoryStore.InventoryApp.HandleAddNew` | src/App.tsx:259-275 | a visitor only gets the login prompt; the owner gets add mode with a blank item carrying the fresh id; the inventory never changes |
| `InventoryStore.InventoryApp.HandleEdit` | src/App.tsx:277-284 | a visitor only gets the login prompt; the owner gets edit mode on the item; the inventory never changes |
| `InventoryStore.InventoryApp.HandleDelete` | src/App.tsx:286-294 | a visitor only gets the login prompt; a confirmed owner delete removes exactly the items with that id; a declined one changes nothing |
| `InventoryStore.InventoryApp.HandleSave` | src/App.tsx:296-308 | add mode appends the item at the end, edit mode replaces by id; both close the form; ids stay unique when a new item keeps its opening id |
| `InventoryStore.InventoryApp.HandleCancel` | src/App.tsx:310-313 | closes the form and leaves the inventory alone |
| `InventoryStore.InventoryApp.HandleLogin` | src/App.tsx:184-210 | an error sets the message only; a session signs in, records the email, closes the dialog and clears the error; no session changes nothing; a thrown call sets the fixed failure message |
| `InventoryStore.InventoryApp.HandleLogout` | src/App.tsx:212-220 | a completed sign-out clears authentication and email; a thrown one changes nothing |
| `InventoryStore.InventoryApp.CheckSession` | src/App.tsx:172-182 | a found session signs in with its email; otherwise nothing changes |
| `InventoryStore.InventoryApp.OpenAuthModal` | src/App.tsx:358 | "Owner Login" opens the login dialog |
| `InventoryStore.InventoryApp.CloseAuthModal` | src/App.tsx:437-440 | closing the dialog hides it and clears the error |
| `EditModal.Get` | src/components/edit-modal.tsx:24-26 | each field reads a value of its own kind |
| `EditModal.WithField` | src/components/edit-modal.tsx:24-26 | the named field takes the new value; every other field and the id keep theirs |
| `EditModal.NumberInput` | src/components/edit-modal.tsx:87-115 | unparsable numeric input becomes 0; a parsed number, negative included, passes through unclamped |
| `EditModal.RequiredFieldsFilled` | src/components/edit-modal.tsx:17 | the check passes iff name and category are both non-empty |
| `EditModal.SubmittedCategoryIsReal` | src/components/edit-modal.tsx:64-74 | a category picked from the drop-down (`CategoryOptions`: the placeholder "", Baked Goods, Meat, Self Care) that passes the required check is Baked Goods, Meat or Self Care |
| `EditModal.EditForm.constructor` | src/components/edit-modal.tsx:13 | the working copy starts as the item given |
| `EditModal.EditForm.HandleChange` | src/components/edit-modal.tsx:24-26 | exactly the named field changes, and the id never does |
| `EditModal.EditForm.HandleSubmit` | src/components/edit-modal.tsx:15-22 | the working copy is saved, exactly as it is, iff name and category are both non-empty |
| `EditModal.SubmitUnedited` | src/components/edit-modal.tsx:13-22 | an unedited form saves the original item iff its name and category are filled |

## Left out

- Price is an integer number of cents. The source's floating-point `price`, `parseFloat` and `toFixed(2)` are not modelled.
- Quantities and reorder levels are unbounded integers. JavaScript numbers are 64-bit floats, so precision loss above 2^53 and fractional values are not modelled.
- `toLowerCase` folds ASCII letters only. Unicode case mapping is an approximation left out.
- The identity-service calls `getSession`, `signInWithPassword` and `signOut` are not modelled. Their results become the parameters `SessionCheck`, `SignInOutcome` and `SignOutOutcome`. Console logging is dropped.
- `Date.now()` id generation is not modelled. `HandleAddNew` takes the new id as a parameter and requires that no item already carries it.
- The `confirm()` dialog becomes the `confirmed` parameter of `HandleDelete`. The `alert()` in the form becomes a `None` result of `HandleSubmit`.
- `HandleSave`: it promises the unique-id invariant only when a new item keeps the id the form was opened with. Any item may be passed to it, but `EditForm` always passes its working copy, and that copy keeps its id.
- `EditModal.Field`: `handleChange` accepts any key of the item, but the form never passes `id`, so the model has no field for it. A value is required to have its field's kind (text or number). TypeScript's `string | number` does not enforce this.
- The browser's `min="0"` and `required` input checks are not modelled. Nothing in the code clamps negative numbers.
- Rendering is left out: JSX, styling, the grid (`inventory-grid.tsx` maps items to cards) and the filter controls (`inventory-filters.tsx`). The condition that shows the edit dialog only to a signed-in owner (`src/App.tsx:424`) and the filter's category list (`src/App.tsx:223`) are part of this.
- The mock inventory is not modelled. The constructor takes any initial items whose ids are unique.
- The signup and health endpoints (`src/supabase/functions/server/index.tsx`) are HTTP plumbing around an external user-creation call. They are not part of this model.
