/** The add/edit form (src/components/edit-modal.tsx): a working copy of the
    item, changed one field at a time, saved only when name and category are filled. */
module EditModal {
  import opened Wrappers
  import opened Items

  /** The fields the form's inputs edit. The id has no input and is never changed. */
  datatype Field = Name | Category | Price | Quantity | ReorderLevel | Image

  /** A value typed into an input: text for name, category and image, a number otherwise. */
  datatype FieldValue = Text(text: string) | Number(number: int)

  /** The kind of value each field holds. */
  predicate Fits(field: Field, value: FieldValue)
  {
    match field
    case Name | Category | Image => value.Text?
    case Price | Quantity | ReorderLevel => value.Number?
  }

  /** The current value of a field. */
  function Get(item: InventoryItem, field: Field): (v: FieldValue)
    ensures Fits(field, v)
  {
    match field
    case Name => Text(item.name)
    case Category => Text(item.category)
    case Price => Number(item.price)
    case Quantity => Number(item.quantity)
    case ReorderLevel => Number(item.reorderLevel)
    case Image => Text(item.image)
  }

  /** `{ ...prev, [field]: value }`: the named field takes the value, every other
      field and the id keep theirs. */
  function WithField(item: InventoryItem, field: Field, value: FieldValue): (r: InventoryItem)
    requires Fits(field, value)
    ensures Get(r, field) == value
    ensures forall g :: g != field ==> Get(r, g) == Get(item, g)
    ensures r.id == item.id
  {
    match field
    case Name => item.(name := value.text)
    case Category => item.(category := value.text)
    case Price => item.(price := value.number)
    case Quantity => item.(quantity := value.number)
    case ReorderLevel => item.(reorderLevel := value.number)
    case Image => item.(image := value.text)
  }

  /** `parseInt(input) || 0` and `parseFloat(input) || 0`: unparsable input
      (`None`) becomes 0; a negative number passes through unclamped. */
  function NumberInput(parsed: Option<int>): (n: int)
    ensures parsed.None? ==> n == 0
    ensures parsed.Some? ==> n == parsed.value
    ensures n < 0 <==> parsed.Some? && parsed.value < 0
  {
    parsed.GetOr(0)
  }

  /** The choices of the category drop-down; the first is the placeholder. */
  const CategoryOptions: seq<string> := ["", "Baked Goods", "Meat", "Self Care"]

  /** The required-field check of `handleSubmit`. */
  function RequiredFieldsFilled(data: InventoryItem): (filled: bool)
    ensures filled ==> |data.name| > 0 && |data.category| > 0
    ensures !filled ==> data.name == [] || data.category == []
  {
    data.name != "" && data.category != ""
  }

  /** A category picked from the drop-down that passes the check is one of the three real ones. */
  lemma SubmittedCategoryIsReal(data: InventoryItem)
    requires data.category in CategoryOptions && RequiredFieldsFilled(data)
    ensures data.category in ["Baked Goods", "Meat", "Self Care"]
  {
  }

  /** The `EditModal` component's state. */
  class EditForm {
    const item: InventoryItem
    const isNew: bool
    var formData: InventoryItem

    /** The working copy never takes another id than the item it was opened with. */
    ghost predicate Valid()
      reads this
    {
      formData.id == item.id
    }

    /** The form opens with `formData` equal to the item it was given. */
    constructor (item: InventoryItem, isNew: bool)
      ensures Valid()
      ensures this.item == item && this.isNew == isNew && formData == item
    {
      this.item := item;
      this.isNew := isNew;
      formData := item;
    }

    /** `handleChange(field, value)`: one field of the working copy changes. */
    method HandleChange(field: Field, value: FieldValue)
      requires Valid()
      requires Fits(field, value)
      modifies this`formData
      ensures Valid()
      ensures Get(formData, field) == value
      ensures forall g :: g != field ==> Get(formData, g) == Get(old(formData), g)
    {
      formData := WithField(formData, field, value);
    }

    /** `handleSubmit`: the working copy is handed to `onSave` exactly when name
        and category are filled; otherwise nothing is saved. */
    method HandleSubmit() returns (saved: Option<InventoryItem>)
      ensures saved.Some? <==> formData.name != "" && formData.category != ""
      ensures saved.Some? ==> saved.value == formData
    {
      if !RequiredFieldsFilled(formData) {
        return None;
      }
      return Some(formData);
    }
  }

  /** Opening the form on an item and submitting it unchanged saves that item
      when its name and category are filled, and nothing otherwise. */
  method SubmitUnedited(item: InventoryItem, isNew: bool) returns (saved: Option<InventoryItem>)
    ensures RequiredFieldsFilled(item) ==> saved == Some(item)
    ensures !RequiredFieldsFilled(item) ==> saved == None
  {
    var form := new EditForm(item, isNew);
    saved := form.HandleSubmit();
  }
}
