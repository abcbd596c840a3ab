/** The application's state and its handlers (src/App.tsx): the inventory
    collection, the item being edited, and the owner-authentication gate in
    front of every change. */
module InventoryStore {
  import opened Wrappers
  import opened Items
  import opened SeqFilter
  import opened InventoryFilter
  import opened InventoryStats
  import opened InventoryCard

  /** The picture a new item starts with. */
  const DefaultImage := "https://images.unsplash.com/photo-1523275335684-37898b6baf30?w=400&h=400&fit=crop"

  /** The message shown when the sign-in call itself throws. */
  const LoginFailedMessage := "Failed to login. Please try again."

  /** The record `handleAddNew` opens the form with: blank name and category,
      zero quantity and price, reorder level 10. It carries the given id, has
      neither of the two required fields filled, and starts out of stock. */
  function BlankItem(id: string): (item: InventoryItem)
    ensures item.id == id && item.name == "" && item.category == ""
    ensures Classify(item.quantity, item.reorderLevel) == OutOfStock
    ensures MatchesStock(item, "out") && !MatchesStock(item, "low") && !MatchesStock(item, "in")
  {
    InventoryItem(id, "", "", 0, 0, DefaultImage, 10)
  }

  /** The delete callback: keep every item whose id differs. */
  function KeepsOtherIds(id: string): InventoryItem -> bool
  {
    (item: InventoryItem) => item.id != id
  }

  /** The items carrying a given id. */
  function HasId(id: string): InventoryItem -> bool
  {
    (item: InventoryItem) => item.id == id
  }

  /** Filtering keeps ids unique. */
  lemma {:induction false} FilterKeepsUniqueIds(inv: seq<InventoryItem>, p: InventoryItem -> bool)
    requires UniqueIds(inv)
    ensures UniqueIds(Filter(inv, p))
  {
    if inv != [] {
      var rest := inv[1..];
      assert UniqueIds(rest) by {
        forall i, j | 0 <= i < j < |rest| ensures rest[i].id != rest[j].id {
          assert rest[i] == inv[i + 1] && rest[j] == inv[j + 1];
        }
      }
      FilterKeepsUniqueIds(rest, p);
      if p(inv[0]) {
        var r := Filter(inv, p);
        var tail := Filter(rest, p);
        assert r == [inv[0]] + tail;
        forall i, j | 0 <= i < j < |r| ensures r[i].id != r[j].id {
          if i == 0 {
            assert r[j] == tail[j - 1];
            assert tail[j - 1] in rest;
            var k :| 0 <= k < |rest| && rest[k] == tail[j - 1];
            assert inv[k + 1] == rest[k];
          } else {
            assert r[i] == tail[i - 1] && r[j] == tail[j - 1];
          }
        }
      }
    }
  }

  /** With unique ids an id is carried by one item if present and by none otherwise. */
  lemma {:induction false} UniqueIdCount(inv: seq<InventoryItem>, id: string)
    requires UniqueIds(inv)
    ensures |Filter(inv, HasId(id))| == if id in Ids(inv) then 1 else 0
  {
    if inv != [] {
      var rest := inv[1..];
      assert UniqueIds(rest) by {
        forall i, j | 0 <= i < j < |rest| ensures rest[i].id != rest[j].id {
          assert rest[i] == inv[i + 1] && rest[j] == inv[j + 1];
        }
      }
      UniqueIdCount(rest, id);
      assert inv == [inv[0]] + rest;
      assert Ids(inv) == {inv[0].id} + Ids(rest);
    }
  }

  /** Deleting an id that no item carries changes nothing. */
  lemma {:induction false} RemoveAbsentId(inv: seq<InventoryItem>, id: string)
    ensures id !in Ids(inv) ==> Filter(inv, KeepsOtherIds(id)) == inv
  {
    if id !in Ids(inv) {
      FilterKeepsAll(inv, KeepsOtherIds(id));
    }
  }

  /** `inventory.filter((item) => item.id !== id)`: every item carrying `id` is
      dropped and every other item is kept, in order. */
  function RemoveById(inv: seq<InventoryItem>, id: string): (r: seq<InventoryItem>)
    ensures Subsequence(r, inv)
    ensures forall x :: x in r ==> x in inv && x.id != id
    ensures forall x :: x in inv && x.id != id ==> x in r
    ensures |r| + |Filter(inv, HasId(id))| == |inv|
    ensures id !in Ids(inv) ==> r == inv
    ensures Ids(r) == Ids(inv) - {id}
    ensures UniqueIds(inv) ==> UniqueIds(r) && |r| == if id in Ids(inv) then |inv| - 1 else |inv|
  {
    var r := Filter(inv, KeepsOtherIds(id));
    FilterCountComplement(inv, KeepsOtherIds(id), HasId(id));
    RemoveAbsentId(inv, id);
    assert Ids(r) == Ids(inv) - {id} by {
      forall x | x in inv && x.id != id ensures x.id in Ids(r) {
        assert KeepsOtherIds(id)(x);
        assert x in r;
      }
    }
    if UniqueIds(inv) then
      FilterKeepsUniqueIds(inv, KeepsOtherIds(id));
      UniqueIdCount(inv, id);
      r
    else
      r
  }

  /** `inventory.map((item) => item.id === updatedItem.id ? updatedItem : item)`:
      every item carrying the id becomes `updatedItem`, the others and the order stay. */
  function ReplaceById(inv: seq<InventoryItem>, updatedItem: InventoryItem): (r: seq<InventoryItem>)
    ensures |r| == |inv|
    ensures forall i :: 0 <= i < |inv| ==> r[i].id == inv[i].id
    ensures forall i :: 0 <= i < |inv| && inv[i].id != updatedItem.id ==> r[i] == inv[i]
    ensures forall i :: 0 <= i < |inv| && inv[i].id == updatedItem.id ==> r[i] == updatedItem
    ensures updatedItem.id !in Ids(inv) ==> r == inv
    ensures Ids(r) == Ids(inv)
    ensures UniqueIds(inv) ==> UniqueIds(r)
  {
    var r := seq(|inv|, i requires 0 <= i < |inv| => if inv[i].id == updatedItem.id then updatedItem else inv[i]);
    assert forall x :: x in r ==> x.id in Ids(inv) by {
      forall x | x in r ensures x.id in Ids(inv) {
        var k :| 0 <= k < |r| && r[k] == x;
        assert inv[k] in inv;
      }
    }
    assert forall x :: x in inv ==> x.id in Ids(r) by {
      forall x | x in inv ensures x.id in Ids(r) {
        var k :| 0 <= k < |inv| && inv[k] == x;
        assert r[k] in r;
      }
    }
    r
  }

  /** Appending an item whose id is new keeps ids unique. */
  lemma AppendFreshKeepsUniqueIds(inv: seq<InventoryItem>, item: InventoryItem)
    requires UniqueIds(inv) && item.id !in Ids(inv)
    ensures UniqueIds(inv + [item])
  {
  }

  /** Appending an item adds one product, its quantity to the unit total, and
      one to whichever counter its band selects. */
  lemma AppendUpdatesStats(inv: seq<InventoryItem>, item: InventoryItem)
    ensures Stats(inv + [item]).totalProducts == |inv| + 1
    ensures Stats(inv + [item]).totalItems == TotalItems(inv) + item.quantity
    ensures OutOfStockCount(inv + [item]) == OutOfStockCount(inv) + (if item.quantity == 0 then 1 else 0)
    ensures LowStockCount(inv + [item]) == LowStockCount(inv) + (if CountedLowStock(item) then 1 else 0)
  {
    TotalItemsAppend(inv, [item]);
    assert [item][..0] == [];
    FilterAppend(inv, [item], CountedOutOfStock);
    FilterAppend(inv, [item], CountedLowStock);
    assert [item][1..] == [];
  }

  /** What the sign-in call produced: an error object, a session (with or
      without an email), neither, or a thrown exception. */
  datatype SignInOutcome = SignInFailed(message: string) | SignedIn(email: Option<string>) | NoSession | SignInThrew

  /** What the sign-out call produced. */
  datatype SignOutOutcome = SignedOut | SignOutThrew

  /** What the start-up session check produced. */
  datatype SessionCheck = SessionFound(email: Option<string>) | NoSessionFound | SessionCheckThrew

  /** The `App` component's state. */
  class InventoryApp {
    var inventory: seq<InventoryItem>
    var searchQuery: string
    var selectedCategory: string
    var stockFilter: string
    var editingItem: Option<InventoryItem>
    var isAddingNew: bool
    var isAuthenticated: bool
    var showAuthModal: bool
    var authError: string
    var userEmail: string

    /** Ids are unique, and an item being added carries an id not yet in use. */
    ghost predicate Valid()
      reads this
    {
      && UniqueIds(inventory)
      && (isAddingNew ==> editingItem.Some? && editingItem.value.id !in Ids(inventory))
    }

    /** The initial state: the given items, no filters, nobody signed in. */
    constructor (initial: seq<InventoryItem>)
      requires UniqueIds(initial)
      ensures Valid()
      ensures inventory == initial
      ensures searchQuery == "" && selectedCategory == "all" && stockFilter == "all"
      ensures editingItem == None && !isAddingNew
      ensures !isAuthenticated && !showAuthModal && authError == "" && userEmail == ""
    {
      inventory := initial;
      searchQuery, selectedCategory, stockFilter := "", "all", "all";
      editingItem, isAddingNew := None, false;
      isAuthenticated, showAuthModal := false, false;
      authError, userEmail := "", "";
    }

    /** `filteredInventory`, the items the grid shows. */
    function VisibleItems(): (r: seq<InventoryItem>)
      reads this
      ensures Subsequence(r, inventory)
      ensures forall x :: x in r ==> x in inventory && Matches(x, searchQuery, selectedCategory, stockFilter)
      ensures forall x :: x in inventory && Matches(x, searchQuery, selectedCategory, stockFilter) ==> x in r
    {
      FilteredInventory(inventory, searchQuery, selectedCategory, stockFilter)
    }

    /** The four header figures, over the whole inventory. */
    function Summary(): (st: Statistics)
      reads this
      ensures st.totalProducts == |inventory|
      ensures st.outOfStock + st.lowStock <= |inventory|
    {
      Stats(inventory)
    }

    method SetSearchQuery(query: string)
      modifies this`searchQuery
      ensures searchQuery == query
    {
      searchQuery := query;
    }

    method SetSelectedCategory(category: string)
      modifies this`selectedCategory
      ensures selectedCategory == category
    {
      selectedCategory := category;
    }

    method SetStockFilter(filter: string)
      modifies this`stockFilter
      ensures stockFilter == filter
    {
      stockFilter := filter;
    }

    /** "Add Item": a visitor gets the login prompt; the owner gets a blank form
        for a new item with id `newId`. */
    method HandleAddNew(newId: string)
      requires Valid()
      requires newId !in Ids(inventory)
      modifies this`showAuthModal, this`isAddingNew, this`editingItem
      ensures Valid()
      ensures inventory == old(inventory)
      ensures !isAuthenticated ==>
        showAuthModal && isAddingNew == old(isAddingNew) && editingItem == old(editingItem)
      ensures isAuthenticated ==>
        showAuthModal == old(showAuthModal) && isAddingNew && editingItem == Some(BlankItem(newId))
    {
      if !isAuthenticated {
        showAuthModal := true;
        return;
      }
      isAddingNew := true;
      editingItem := Some(BlankItem(newId));
    }

    /** A card's edit button: a visitor gets the login prompt; the owner gets
        the form filled with `item`. */
    method HandleEdit(item: InventoryItem)
      requires Valid()
      modifies this`showAuthModal, this`isAddingNew, this`editingItem
      ensures Valid()
      ensures inventory == old(inventory)
      ensures !isAuthenticated ==>
        showAuthModal && isAddingNew == old(isAddingNew) && editingItem == old(editingItem)
      ensures isAuthenticated ==>
        showAuthModal == old(showAuthModal) && !isAddingNew && editingItem == Some(item)
    {
      if !isAuthenticated {
        showAuthModal := true;
        return;
      }
      isAddingNew := false;
      editingItem := Some(item);
    }

    /** A card's delete button; `confirmed` is the answer to the confirmation
        dialog, which a visitor never sees. */
    method HandleDelete(id: string, confirmed: bool)
      requires Valid()
      modifies this`showAuthModal, this`inventory
      ensures Valid()
      ensures !isAuthenticated ==> showAuthModal && inventory == old(inventory)
      ensures isAuthenticated ==> showAuthModal == old(showAuthModal)
      ensures isAuthenticated && confirmed ==> inventory == RemoveById(old(inventory), id)
      ensures isAuthenticated && !confirmed ==> inventory == old(inventory)
    {
      if !isAuthenticated {
        showAuthModal := true;
        return;
      }
      if confirmed {
        inventory := RemoveById(inventory, id);
      }
    }

    /** The form's save: append in add mode, replace by id otherwise, then close
        the form. Ids stay unique when, as the form guarantees, a new item keeps
        the id it was opened with. */
    method HandleSave(updatedItem: InventoryItem)
      requires Valid()
      modifies this`inventory, this`editingItem, this`isAddingNew
      ensures old(isAddingNew) ==> inventory == old(inventory) + [updatedItem]
      ensures !old(isAddingNew) ==> inventory == ReplaceById(old(inventory), updatedItem)
      ensures editingItem == None && !isAddingNew
      ensures (old(isAddingNew) ==> updatedItem.id == old(editingItem).value.id) ==> Valid()
    {
      if isAddingNew {
        if updatedItem.id == editingItem.value.id {
          AppendFreshKeepsUniqueIds(inventory, updatedItem);
        }
        inventory := inventory + [updatedItem];
      } else {
        inventory := ReplaceById(inventory, updatedItem);
      }
      editingItem := None;
      isAddingNew := false;
    }

    /** The form's cancel: close it, leaving the inventory alone. */
    method HandleCancel()
      requires Valid()
      modifies this`editingItem, this`isAddingNew
      ensures Valid()
      ensures inventory == old(inventory)
      ensures editingItem == None && !isAddingNew
    {
      editingItem := None;
      isAddingNew := false;
    }

    /** The state change after the sign-in call returns. */
    method HandleLogin(outcome: SignInOutcome)
      requires Valid()
      modifies this`isAuthenticated, this`userEmail, this`showAuthModal, this`authError
      ensures Valid()
      ensures outcome.SignInFailed? ==>
        authError == outcome.message && isAuthenticated == old(isAuthenticated)
        && showAuthModal == old(showAuthModal) && userEmail == old(userEmail)
      ensures outcome.SignedIn? ==>
        isAuthenticated && userEmail == outcome.email.GetOr("") && !showAuthModal && authError == ""
      ensures outcome.NoSession? ==>
        authError == old(authError) && isAuthenticated == old(isAuthenticated)
        && showAuthModal == old(showAuthModal) && userEmail == old(userEmail)
      ensures outcome.SignInThrew? ==>
        authError == LoginFailedMessage && isAuthenticated == old(isAuthenticated)
        && showAuthModal == old(showAuthModal) && userEmail == old(userEmail)
    {
      match outcome
      case SignInFailed(message) =>
        authError := message;
      case SignedIn(email) =>
        isAuthenticated := true;
        userEmail := email.GetOr("");
        showAuthModal := false;
        authError := "";
      case NoSession =>
      case SignInThrew =>
        authError := LoginFailedMessage;
    }

    /** The state change after the sign-out call returns. */
    method HandleLogout(outcome: SignOutOutcome)
      requires Valid()
      modifies this`isAuthenticated, this`userEmail
      ensures Valid()
      ensures outcome.SignedOut? ==> !isAuthenticated && userEmail == ""
      ensures outcome.SignOutThrew? ==> isAuthenticated == old(isAuthenticated) && userEmail == old(userEmail)
    {
      if outcome.SignedOut? {
        isAuthenticated := false;
        userEmail := "";
      }
    }

    /** The state change after the start-up session check returns. */
    method CheckSession(outcome: SessionCheck)
      requires Valid()
      modifies this`isAuthenticated, this`userEmail
      ensures Valid()
      ensures outcome.SessionFound? ==> isAuthenticated && userEmail == outcome.email.GetOr("")
      ensures !outcome.SessionFound? ==> isAuthenticated == old(isAuthenticated) && userEmail == old(userEmail)
    {
      if outcome.SessionFound? {
        isAuthenticated := true;
        userEmail := outcome.email.GetOr("");
      }
    }

    /** The header's "Owner Login" button. */
    method OpenAuthModal()
      modifies this`showAuthModal
      ensures showAuthModal
    {
      showAuthModal := true;
    }

    /** The login dialog's close button. */
    method CloseAuthModal()
      modifies this`showAuthModal, this`authError
      ensures !showAuthModal && authError == ""
    {
      showAuthModal := false;
      authError := "";
    }
  }
}
