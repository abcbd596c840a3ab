/** Sequences of user actions across the application and the form, checked
    against the contracts of the handlers alone. */
module Scenarios {
  import opened Wrappers
  import opened Items
  import opened InventoryStore
  import opened EditModal

  /** A three-item inventory with ids "1", "2", "3". */
  const ThreeItems: seq<InventoryItem> :=
    [InventoryItem("1", "Sourdough", "Baked Goods", 0, 650, "", 5),
     InventoryItem("2", "Bacon", "Meat", 3, 899, "", 5),
     InventoryItem("3", "Soap", "Self Care", 10, 450, "", 5)]

  /** A visitor pressing "Add Item" gets the login prompt and the inventory keeps its three items. */
  method VisitorCannotAdd()
  {
    var app := new InventoryApp(ThreeItems);
    app.HandleAddNew("4");
    assert app.showAuthModal && app.inventory == ThreeItems && app.editingItem == None;
  }

  /** The owner signs in, adds an item through the form and sees it last, with ids still unique. */
  method OwnerAddsThroughForm()
  {
    var app := new InventoryApp(ThreeItems);
    app.HandleLogin(SignedIn(Some("owner@example.com")));
    app.HandleAddNew("4");
    var form := new EditForm(app.editingItem.value, app.isAddingNew);
    form.HandleChange(Name, Text("Rye Loaf"));
    form.HandleChange(Category, Text("Baked Goods"));
    form.HandleChange(Quantity, Number(NumberInput(Some(12))));
    var saved := form.HandleSubmit();
    assert saved.Some?;
    app.HandleSave(saved.value);
    assert |app.inventory| == 4 && app.inventory[3] == form.formData;
    assert app.inventory[3].name == "Rye Loaf" && app.inventory[3].id == "4";
    assert app.Valid() && app.editingItem == None;
  }

  /** An empty form cannot be saved. */
  method BlankFormIsRejected()
  {
    var form := new EditForm(BlankItem("9"), true);
    var saved := form.HandleSubmit();
    assert saved == None;
  }

  /** The owner confirming deletion of an id nobody carries leaves the three items untouched. */
  method DeleteMissingIdIsNoOp()
  {
    var app := new InventoryApp(ThreeItems);
    app.HandleLogin(SignedIn(None));
    assert "missing-id" !in Ids(ThreeItems);
    app.HandleDelete("missing-id", true);
    assert app.inventory == ThreeItems;
  }

  /** The owner confirming deletion of an existing id loses exactly that item. */
  method DeleteDropsOneItem()
  {
    var app := new InventoryApp(ThreeItems);
    app.HandleLogin(SignedIn(None));
    assert ThreeItems[1] in ThreeItems;
    assert "2" in Ids(ThreeItems);
    app.HandleDelete("2", true);
    assert |app.inventory| == 2 && "2" !in Ids(app.inventory);
  }
}
