/**
 * The order form of both front-ends: reading the form into order data and the
 * required-field checks they share. The form's inputs are given as values.
 */
module OrderForm {
  import opened Common
  import opened Text

  /** One product line of the form, as typed. */
  datatype ItemRow = ItemRow(product: string, quantity: string, price: string)

  /** The form's inputs, as typed. */
  datatype FormFields = FormFields(
    customerName: string, customerPhone: string, deliveryDate: string, deliveryTime: string,
    notes: string, totalAmount: string, rows: seq<ItemRow>)

  datatype Item = Item(product: string, quantity: string, price: string)

  /** What the form yields: trimmed texts (date and time as typed) and the complete item lines. */
  datatype FormData = FormData(
    customerName: string, customerPhone: string, deliveryDate: string, deliveryTime: string,
    items: seq<Item>, notes: string, totalAmount: string)

  /** A row becomes an item only when its trimmed product and quantity are both non-empty. */
  predicate RowComplete(row: ItemRow)
  {
    Trim(row.product) != "" && Trim(row.quantity) != ""
  }

  function ItemOf(row: ItemRow): Item
  {
    Item(Trim(row.product), Trim(row.quantity), Trim(row.price))
  }

  /** The items the form yields: one per complete row, in row order, with trimmed texts. */
  function FormItems(rows: seq<ItemRow>): (items: seq<Item>)
    ensures |items| <= |rows|
    ensures forall it :: it in items ==>
      it.product != "" && it.quantity != "" && IsTrimmed(it.product) && IsTrimmed(it.quantity) && IsTrimmed(it.price)
    decreases |rows|
  {
    if rows == [] then []
    else
      var row := rows[|rows| - 1];
      var front := FormItems(rows[..|rows| - 1]);
      if RowComplete(row) then front + [ItemOf(row)] else front
  }

  lemma FormItemsStep(rows: seq<ItemRow>, i: nat)
    requires i < |rows|
    ensures FormItems(rows[..i + 1]) ==
      FormItems(rows[..i]) + if RowComplete(rows[i]) then [ItemOf(rows[i])] else []
  {
    assert rows[..i + 1][..i] == rows[..i];
  }

  function FormDataOf(f: FormFields): FormData
  {
    FormData(Trim(f.customerName), Trim(f.customerPhone), f.deliveryDate, f.deliveryTime,
             FormItems(f.rows), Trim(f.notes), Trim(f.totalAmount))
  }

  /** Reads the form, walking the item rows one by one as the front-ends do. */
  method GetFormData(f: FormFields) returns (data: FormData)
    ensures data == FormDataOf(f)
    ensures IsTrimmed(data.customerName) && IsTrimmed(data.notes) && IsTrimmed(data.totalAmount)
    ensures forall it :: it in data.items ==> it.product != "" && it.quantity != ""
  {
    var items: seq<Item> := [];
    var i := 0;
    while i < |f.rows|
      invariant 0 <= i <= |f.rows|
      invariant items == FormItems(f.rows[..i])
    {
      var row := f.rows[i];
      FormItemsStep(f.rows, i);
      if RowComplete(row) {
        items := items + [ItemOf(row)];
      }
      i := i + 1;
    }
    assert f.rows[..i] == f.rows;
    data := FormData(Trim(f.customerName), Trim(f.customerPhone), f.deliveryDate, f.deliveryTime,
                     items, Trim(f.notes), Trim(f.totalAmount));
  }

  /** Why the front-ends refuse an order, one reason per check. */
  datatype FormError =
    | NameRequired | DateRequired | TimeRequired | ItemsRequired
    | BadDateFormat | BadTimeFormat | DeliveryInPast

  /**
   * The checks both front-ends make, in their order: the customer name, the
   * delivery date and the delivery time must be non-empty, and there must be an
   * item. The first failing check is reported.
   */
  function RequiredFieldsError(d: FormData): (r: Option<FormError>)
    ensures r == None <==> d.customerName != "" && d.deliveryDate != "" && d.deliveryTime != "" && d.items != []
    ensures r == Some(NameRequired) <==> d.customerName == ""
    ensures r == Some(DateRequired) <==> d.customerName != "" && d.deliveryDate == ""
    ensures r == Some(TimeRequired) <==> d.customerName != "" && d.deliveryDate != "" && d.deliveryTime == ""
    ensures r == Some(ItemsRequired) <==>
      d.customerName != "" && d.deliveryDate != "" && d.deliveryTime != "" && d.items == []
  {
    if d.customerName == "" then Some(NameRequired)
    else if d.deliveryDate == "" then Some(DateRequired)
    else if d.deliveryTime == "" then Some(TimeRequired)
    else if |d.items| == 0 then Some(ItemsRequired)
    else None
  }
}
