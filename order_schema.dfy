/**
 * The server's order schema: how a new document is cast (trimmed, defaults
 * filled in) and validated before it is saved, the delivery date-time
 * virtual, and the two statics (orders of one delivery date, counts per
 * status). Absent fields are `None`; every present field is a string.
 */
module OrderSchema {
  import opened Common
  import opened Text
  import opened Formats

  /** The status enum, in declaration order; the first is the default. */
  const Statuses: seq<string> := ["pendiente", "confirmado", "en_preparacion", "listo", "entregado"]
  const DefaultStatus: string := "pendiente"

  /** Length bounds of the text fields, counted in UTF-16 code units as a JavaScript string counts them. */
  const MaxNameLength: nat := 100
  const MaxPhoneLength: nat := 20
  const MaxNotesLength: nat := 500

  datatype ItemInput = ItemInput(product: Option<string>, quantity: Option<string>, price: Option<string>)

  /** The fields handed to the model constructor. */
  datatype OrderInput = OrderInput(
    customerName: Option<string>, customerPhone: Option<string>, deliveryDate: Option<string>,
    deliveryTime: Option<string>, items: Option<seq<ItemInput>>, notes: Option<string>,
    totalAmount: Option<string>, status: Option<string>)

  datatype StoredItem = StoredItem(product: string, quantity: string, price: string)

  /** A saved order (timestamps and id aside). */
  datatype StoredOrder = StoredOrder(
    customerName: string, customerPhone: Option<string>, deliveryDate: string, deliveryTime: string,
    items: seq<StoredItem>, notes: Option<string>, totalAmount: string, status: string)

  /** The trim setter: applied to a present value only. */
  function TrimOpt(v: Option<string>): (r: Option<string>)
    ensures r.Some? <==> v.Some?
    ensures r.Some? ==> IsTrimmed(r.value) && |r.value| <= |v.value|
    ensures r.Some? ==> var a := LeadingSpaces(v.value);
      && a + |r.value| <= |v.value| && r.value == v.value[a..a + |r.value|]
      && AllSpace(v.value[..a]) && AllSpace(v.value[a + |r.value|..])
  {
    if v.Some? then Some(Trim(v.value)) else None
  }

  /** The `required` check on a string path: present and non-empty. */
  predicate Present(v: Option<string>)
  {
    v.Some? && v.value != ""
  }

  /** An item after casting: product and quantity trimmed, price trimmed or defaulted to "". */
  datatype CastItem = CastItem(product: Option<string>, quantity: Option<string>, price: string)

  /** A document after casting, before validation. */
  datatype CastOrder = CastOrder(
    customerName: Option<string>, customerPhone: Option<string>, deliveryDate: Option<string>,
    deliveryTime: Option<string>, items: seq<CastItem>, notes: Option<string>,
    totalAmount: string, status: string)

  function CastItemOf(it: ItemInput): CastItem
  {
    CastItem(TrimOpt(it.product), TrimOpt(it.quantity), if it.price.Some? then Trim(it.price.value) else "")
  }

  function CastItems(items: seq<ItemInput>): (r: seq<CastItem>)
    ensures |r| == |items|
    ensures forall i :: 0 <= i < |items| ==> r[i] == CastItemOf(items[i])
  {
    seq(|items|, i requires 0 <= i < |items| => CastItemOf(items[i]))
  }

  /** Every field the schema trims is free of white space at both ends. */
  predicate Trimmed(d: CastOrder)
  {
    && (d.customerName.Some? ==> IsTrimmed(d.customerName.value))
    && (d.customerPhone.Some? ==> IsTrimmed(d.customerPhone.value))
    && (d.notes.Some? ==> IsTrimmed(d.notes.value))
    && IsTrimmed(d.totalAmount)
    && forall i :: 0 <= i < |d.items| ==>
         && (d.items[i].product.Some? ==> IsTrimmed(d.items[i].product.value))
         && (d.items[i].quantity.Some? ==> IsTrimmed(d.items[i].quantity.value))
         && IsTrimmed(d.items[i].price)
  }

  /** Casting applies the trim setters and fills in the defaults of status, total and item prices. */
  function Cast(x: OrderInput): (d: CastOrder)
    ensures Trimmed(d)
    ensures |d.items| == if x.items.Some? then |x.items.value| else 0
    ensures d.status == if x.status.Some? then x.status.value else DefaultStatus
    ensures x.totalAmount.None? ==> d.totalAmount == ""
    ensures forall i :: 0 <= i < |d.items| && x.items.value[i].price.None? ==> d.items[i].price == ""
    ensures d.customerName == TrimOpt(x.customerName) && d.customerPhone == TrimOpt(x.customerPhone)
    ensures d.notes == TrimOpt(x.notes)
    ensures d.deliveryDate == x.deliveryDate && d.deliveryTime == x.deliveryTime
    ensures x.totalAmount.Some? ==> d.totalAmount == Trim(x.totalAmount.value)
    ensures forall i :: 0 <= i < |d.items| ==>
      && d.items[i].product == TrimOpt(x.items.value[i].product)
      && d.items[i].quantity == TrimOpt(x.items.value[i].quantity)
      && (x.items.value[i].price.Some? ==> d.items[i].price == Trim(x.items.value[i].price.value))
  {
    var items := if x.items.Some? then x.items.value else [];
    CastOrder(
      TrimOpt(x.customerName), TrimOpt(x.customerPhone), x.deliveryDate, x.deliveryTime,
      CastItems(items),
      TrimOpt(x.notes), if x.totalAmount.Some? then Trim(x.totalAmount.value) else "",
      if x.status.Some? then x.status.value else DefaultStatus)
  }

  /** Which rule of a path failed; a path reports only its first failing rule. */
  datatype Rule = Required | MaxLength(limit: nat) | BadFormat | NotInEnum

  datatype Path =
    | CustomerName | CustomerPhone | DeliveryDate | DeliveryTime | Notes | Status
    | ItemProduct(index: nat) | ItemQuantity(index: nat)

  /** The paths the validator visits: the scalar ones and the two required ones of each item. */
  function Paths(d: CastOrder): set<Path>
  {
    {CustomerName, CustomerPhone, DeliveryDate, DeliveryTime, Notes, Status}
      + (set i: nat | i < |d.items| :: ItemProduct(i))
      + (set i: nat | i < |d.items| :: ItemQuantity(i))
  }

  /** The first rule of `p` that the document breaks: `required` first, then the others in declaration order. */
  function Fault(d: CastOrder, p: Path): Option<Rule>
  {
    match p
    case CustomerName =>
      if !Present(d.customerName) then Some(Required)
      else if Utf16Length(d.customerName.value) > MaxNameLength then Some(MaxLength(MaxNameLength)) else None
    case CustomerPhone =>
      if d.customerPhone.Some? && Utf16Length(d.customerPhone.value) > MaxPhoneLength then Some(MaxLength(MaxPhoneLength)) else None
    case DeliveryDate =>
      if !Present(d.deliveryDate) then Some(Required)
      else if !IsDateFormat(d.deliveryDate.value) then Some(BadFormat) else None
    case DeliveryTime =>
      if !Present(d.deliveryTime) then Some(Required)
      else if !IsClockFormat(d.deliveryTime.value) then Some(BadFormat) else None
    case Notes =>
      if d.notes.Some? && Utf16Length(d.notes.value) > MaxNotesLength then Some(MaxLength(MaxNotesLength)) else None
    case Status =>
      if d.status !in Statuses then Some(NotInEnum) else None
    case ItemProduct(i) =>
      if i < |d.items| && !Present(d.items[i].product) then Some(Required) else None
    case ItemQuantity(i) =>
      if i < |d.items| && !Present(d.items[i].quantity) then Some(Required) else None
  }

  /** No path of the document breaks a rule. */
  predicate FaultFree(d: CastOrder)
  {
    && Present(d.customerName) && Utf16Length(d.customerName.value) <= MaxNameLength
    && (d.customerPhone.Some? ==> Utf16Length(d.customerPhone.value) <= MaxPhoneLength)
    && Present(d.deliveryDate) && IsDateFormat(d.deliveryDate.value)
    && Present(d.deliveryTime) && IsClockFormat(d.deliveryTime.value)
    && (d.notes.Some? ==> Utf16Length(d.notes.value) <= MaxNotesLength)
    && d.status in Statuses
    && forall i :: 0 <= i < |d.items| ==> Present(d.items[i].product) && Present(d.items[i].quantity)
  }

  /** The rules stated path by path are the rules stated on the whole document. */
  lemma FaultFreeIffNoFault(d: CastOrder)
    ensures FaultFree(d) <==> forall p :: p in Paths(d) ==> Fault(d, p).None?
  {
    if FaultFree(d) {
      forall p | p in Paths(d) ensures Fault(d, p).None? {
      }
    } else {
      var p: Path;
      if !Present(d.customerName) || Utf16Length(d.customerName.value) > MaxNameLength { p := CustomerName; }
      else if d.customerPhone.Some? && Utf16Length(d.customerPhone.value) > MaxPhoneLength { p := CustomerPhone; }
      else if !Present(d.deliveryDate) || !IsDateFormat(d.deliveryDate.value) { p := DeliveryDate; }
      else if !Present(d.deliveryTime) || !IsClockFormat(d.deliveryTime.value) { p := DeliveryTime; }
      else if d.notes.Some? && Utf16Length(d.notes.value) > MaxNotesLength { p := Notes; }
      else if d.status !in Statuses { p := Status; }
      else {
        var i :| 0 <= i < |d.items| && !(Present(d.items[i].product) && Present(d.items[i].quantity));
        p := if !Present(d.items[i].product) then ItemProduct(i) else ItemQuantity(i);
      }
      assert p in Paths(d) && Fault(d, p).Some?;
    }
  }

  /** The validation error's entries, keyed by path: empty exactly when the document breaks no rule. */
  function Errors(d: CastOrder): (r: map<Path, Rule>)
    ensures r == map[] <==> FaultFree(d)
    ensures forall p :: p in r ==> p in Paths(d) && Fault(d, p) == Some(r[p])
    ensures forall p :: p in Paths(d) && Fault(d, p).Some? ==> p in r
  {
    var r := map p | p in Paths(d) && Fault(d, p).Some? :: Fault(d, p).value;
    assert r == map[] <==> FaultFree(d) by {
      FaultFreeIffNoFault(d);
      if !FaultFree(d) {
        var p :| p in Paths(d) && Fault(d, p).Some?;
        assert p in r;
      }
    }
    r
  }

  predicate ItemAcceptable(it: ItemInput)
  {
    it.product.Some? && Trim(it.product.value) != "" && it.quantity.Some? && Trim(it.quantity.value) != ""
  }

  /** The schema's rules stated on the input directly. */
  predicate Acceptable(x: OrderInput)
  {
    && x.customerName.Some? && Trim(x.customerName.value) != "" && Utf16Length(Trim(x.customerName.value)) <= MaxNameLength
    && (x.customerPhone.Some? ==> Utf16Length(Trim(x.customerPhone.value)) <= MaxPhoneLength)
    && x.deliveryDate.Some? && IsDateFormat(x.deliveryDate.value)
    && x.deliveryTime.Some? && IsClockFormat(x.deliveryTime.value)
    && (x.notes.Some? ==> Utf16Length(Trim(x.notes.value)) <= MaxNotesLength)
    && (x.status.Some? ==> x.status.value in Statuses)
    && (x.items.Some? ==> forall i :: 0 <= i < |x.items.value| ==> ItemAcceptable(x.items.value[i]))
  }

  /** An item passes the schema exactly when its cast product and quantity are present. */
  lemma CastItemsPresent(items: seq<ItemInput>)
    ensures var r := CastItems(items);
      forall i :: 0 <= i < |items| ==>
        (ItemAcceptable(items[i]) <==> Present(r[i].product) && Present(r[i].quantity))
  {
  }

  lemma CastFaultFreeIffAcceptable(x: OrderInput)
    ensures FaultFree(Cast(x)) <==> Acceptable(x)
  {
    if x.items.Some? {
      CastItemsPresent(x.items.value);
    }
  }

  /** What every saved order satisfies. */
  predicate WellFormed(o: StoredOrder)
  {
    && o.customerName != "" && IsTrimmed(o.customerName) && Utf16Length(o.customerName) <= MaxNameLength
    && (o.customerPhone.Some? ==> IsTrimmed(o.customerPhone.value) && Utf16Length(o.customerPhone.value) <= MaxPhoneLength)
    && IsDateFormat(o.deliveryDate) && IsClockFormat(o.deliveryTime)
    && (forall i :: 0 <= i < |o.items| ==>
          && o.items[i].product != "" && IsTrimmed(o.items[i].product)
          && o.items[i].quantity != "" && IsTrimmed(o.items[i].quantity) && IsTrimmed(o.items[i].price))
    && (o.notes.Some? ==> IsTrimmed(o.notes.value) && Utf16Length(o.notes.value) <= MaxNotesLength)
    && IsTrimmed(o.totalAmount)
    && o.status in Statuses
  }

  function StoreItems(items: seq<CastItem>): (r: seq<StoredItem>)
    requires forall i :: 0 <= i < |items| ==> items[i].product.Some? && items[i].quantity.Some?
    ensures |r| == |items|
    ensures forall i :: 0 <= i < |items| ==> r[i] == StoredItem(items[i].product.value, items[i].quantity.value, items[i].price)
  {
    seq(|items|, i requires 0 <= i < |items| => StoredItem(items[i].product.value, items[i].quantity.value, items[i].price))
  }

  /** The saved order of a fault-free document. */
  function Store(d: CastOrder): (o: StoredOrder)
    requires FaultFree(d) && Trimmed(d)
    ensures WellFormed(o)
    ensures |o.items| == |d.items| && o.status == d.status && o.totalAmount == d.totalAmount
    ensures Some(o.customerName) == d.customerName && o.customerPhone == d.customerPhone && o.notes == d.notes
    ensures Some(o.deliveryDate) == d.deliveryDate && Some(o.deliveryTime) == d.deliveryTime
    ensures forall i :: 0 <= i < |o.items| ==>
      && Some(o.items[i].product) == d.items[i].product && Some(o.items[i].quantity) == d.items[i].quantity
      && o.items[i].price == d.items[i].price
  {
    StoredOrder(
      d.customerName.value, d.customerPhone, d.deliveryDate.value, d.deliveryTime.value,
      StoreItems(d.items), d.notes, d.totalAmount, d.status)
  }

  /**
   * A saved order holds the input's values: the texts the schema trims,
   * trimmed, the date and time as given, the items position by position, and
   * the defaults where the status, the total or an item's price is absent.
   */
  predicate SavedFrom(o: StoredOrder, x: OrderInput)
  {
    && x.customerName.Some? && o.customerName == Trim(x.customerName.value)
    && o.customerPhone == TrimOpt(x.customerPhone) && o.notes == TrimOpt(x.notes)
    && x.deliveryDate.Some? && o.deliveryDate == x.deliveryDate.value
    && x.deliveryTime.Some? && o.deliveryTime == x.deliveryTime.value
    && o.totalAmount == (if x.totalAmount.Some? then Trim(x.totalAmount.value) else "")
    && o.status == (if x.status.Some? then x.status.value else DefaultStatus)
    && |o.items| == (if x.items.Some? then |x.items.value| else 0)
    && forall i :: 0 <= i < |o.items| ==>
         && x.items.value[i].product.Some? && o.items[i].product == Trim(x.items.value[i].product.value)
         && x.items.value[i].quantity.Some? && o.items[i].quantity == Trim(x.items.value[i].quantity.value)
         && o.items[i].price == (if x.items.value[i].price.Some? then Trim(x.items.value[i].price.value) else "")
  }

  /** The saved order of an input that casts to a fault-free document holds the input's values. */
  lemma StoreOfCast(x: OrderInput)
    requires FaultFree(Cast(x))
    ensures SavedFrom(Store(Cast(x)), x)
  {
    var d := Cast(x);
    var o := Store(d);
    forall i | 0 <= i < |o.items|
      ensures x.items.value[i].product.Some? && o.items[i].product == Trim(x.items.value[i].product.value)
      ensures x.items.value[i].quantity.Some? && o.items[i].quantity == Trim(x.items.value[i].quantity.value)
    {
      assert Present(d.items[i].product) && Present(d.items[i].quantity);
    }
  }

  /**
   * Casting and validating a new document: the saved order, or the failed
   * paths with the first rule each broke. Absent status, total and item
   * prices take their defaults.
   */
  function Validate(x: OrderInput): (r: Result<StoredOrder, map<Path, Rule>>)
    ensures r.Ok? <==> Acceptable(x)
    ensures r.Ok? ==> WellFormed(r.value)
    ensures r.Ok? ==> SavedFrom(r.value, x)
    ensures r.Err? ==> r.error != map[] && forall p :: p in r.error ==> Fault(Cast(x), p) == Some(r.error[p])
    ensures r.Err? ==> forall p :: p in Paths(Cast(x)) && Fault(Cast(x), p).Some? ==> p in r.error
  {
    var d := Cast(x);
    CastFaultFreeIffAcceptable(x);
    if FaultFree(d) then
      StoreOfCast(x);
      Ok(Store(d))
    else Err(Errors(d))
  }

  /** The input that re-submits a saved order, every field given. */
  function InputOf(o: StoredOrder): OrderInput
  {
    OrderInput(
      Some(o.customerName), o.customerPhone, Some(o.deliveryDate), Some(o.deliveryTime),
      Some(ItemInputs(o.items)),
      o.notes, Some(o.totalAmount), Some(o.status))
  }

  /** The input of a saved item, every field given. */
  function ItemInputOf(it: StoredItem): ItemInput
  {
    ItemInput(Some(it.product), Some(it.quantity), Some(it.price))
  }

  lemma CastOfStoredItem(it: StoredItem)
    requires IsTrimmed(it.product) && IsTrimmed(it.quantity) && IsTrimmed(it.price)
    ensures CastItemOf(ItemInputOf(it)) == CastItem(Some(it.product), Some(it.quantity), it.price)
  {
    TrimOfTrimmed(it.product);
    TrimOfTrimmed(it.quantity);
    TrimOfTrimmed(it.price);
  }

  function ItemInputs(items: seq<StoredItem>): (r: seq<ItemInput>)
    ensures |r| == |items|
    ensures forall i :: 0 <= i < |items| ==> r[i] == ItemInputOf(items[i])
  {
    seq(|items|, i requires 0 <= i < |items| => ItemInputOf(items[i]))
  }

  /** Re-casting saved items gives present products and quantities, and storing them gives the items back. */
  lemma StoredItemsRoundTrip(items: seq<StoredItem>)
    requires forall i :: 0 <= i < |items| ==>
      && items[i].product != "" && IsTrimmed(items[i].product)
      && items[i].quantity != "" && IsTrimmed(items[i].quantity) && IsTrimmed(items[i].price)
    ensures forall i :: 0 <= i < |items| ==>
      Present(CastItems(ItemInputs(items))[i].product) && Present(CastItems(ItemInputs(items))[i].quantity)
    ensures StoreItems(CastItems(ItemInputs(items))) == items
  {
    var c := CastItems(ItemInputs(items));
    forall i | 0 <= i < |items|
      ensures c[i] == CastItem(Some(items[i].product), Some(items[i].quantity), items[i].price)
    {
      CastOfStoredItem(items[i]);
    }
    assert StoreItems(c) == items;
  }

  lemma TrimOptOfTrimmed(v: Option<string>)
    requires v.Some? ==> IsTrimmed(v.value)
    ensures TrimOpt(v) == v
  {
    if v.Some? { TrimOfTrimmed(v.value); }
  }

  /** Casting a saved order's input leaves its scalar fields as they are: there is nothing left to trim. */
  lemma CastOfStoredScalars(o: StoredOrder)
    requires IsTrimmed(o.customerName) && IsTrimmed(o.totalAmount)
    requires o.customerPhone.Some? ==> IsTrimmed(o.customerPhone.value)
    requires o.notes.Some? ==> IsTrimmed(o.notes.value)
    ensures var d := Cast(InputOf(o));
      && d.customerName == Some(o.customerName) && d.customerPhone == o.customerPhone
      && d.notes == o.notes && d.totalAmount == o.totalAmount
  {
    TrimOptOfTrimmed(Some(o.customerName));
    TrimOptOfTrimmed(o.customerPhone);
    TrimOptOfTrimmed(o.notes);
    TrimOfTrimmed(o.totalAmount);
  }

  /** Saving a saved order again stores it unchanged. */
  lemma ResaveIsIdentity(o: StoredOrder)
    requires WellFormed(o)
    ensures Validate(InputOf(o)) == Ok(o)
  {
    var d := Cast(InputOf(o));
    CastOfStoredScalars(o);
    StoredItemsRoundTrip(o.items);
    assert d.items == CastItems(ItemInputs(o.items));
    assert FaultFree(d);
  }

  /** A date-time value: missing (`null`), or a Date that is valid (an instant) or invalid. */
  datatype DateTimeValue = Null | DateValue(instant: Option<int>)

  /**
   * The `deliveryDateTime` virtual: null when the date or the time is missing
   * or empty, else the date parsed from `<date>T<time>` (`parse` stands for
   * the Date constructor; it never throws, an unparseable text gives an
   * invalid Date).
   */
  function DeliveryDateTime(date: Option<string>, time: Option<string>, parse: string -> Option<int>): (r: DateTimeValue)
    ensures r.Null? <==> !Present(date) || !Present(time)
    ensures r.DateValue? ==> r.instant == parse(date.value + "T" + time.value)
  {
    if !Present(date) || !Present(time) then Null
    else DateValue(parse(date.value + "T" + time.value))
  }

  /** A saved order always has a delivery date-time. */
  lemma StoredHasDateTime(o: StoredOrder, parse: string -> Option<int>)
    requires WellFormed(o)
    ensures DeliveryDateTime(Some(o.deliveryDate), Some(o.deliveryTime), parse).DateValue?
  {
  }

  /** The argument of the by-date static: a text, or a Date given by its ISO text (`None` when invalid, where `toISOString` throws). */
  datatype DateArg = DateText(text: string) | DateObject(iso: Option<string>)

  /** The date the static looks for: a text as is, a Date's ISO text before its 'T'; an invalid Date is an error. */
  function TargetDate(arg: DateArg): (r: Option<string>)
    ensures arg.DateText? ==> r == Some(arg.text)
    ensures arg.DateObject? ==> (r.Some? <==> arg.iso.Some?)
    ensures arg.DateObject? && r.Some? ==>
      'T' !in r.value && |r.value| <= |arg.iso.value| && r.value == arg.iso.value[..|r.value|]
  {
    match arg
    case DateText(t) => Some(t)
    case DateObject(iso) => if iso.Some? then Some(Split(iso.value, 'T')[0]) else None
  }

  lemma DateFormatHasNoT(date: string)
    requires IsDateFormat(date)
    ensures 'T' !in date
  {
    assert date == [date[0], date[1], date[2], date[3], date[4], date[5], date[6], date[7], date[8], date[9]];
  }

  /** For a Date whose ISO text is `YYYY-MM-DD` then 'T', the target is that calendar date. */
  lemma TargetDateOfIso(date: string, rest: string)
    requires IsDateFormat(date)
    ensures TargetDate(DateObject(Some(date + "T" + rest))) == Some(date)
  {
    var iso := date + "T" + rest;
    var r := Split(iso, 'T')[0];
    DateFormatHasNoT(date);
    assert iso[10] == 'T';
    assert iso[..10] == date;
  }

  /** Ascending delivery time, compared as text. */
  function ByTime(): (StoredOrder, StoredOrder) -> bool
  {
    (a: StoredOrder, b: StoredOrder) => LexLe(a.deliveryTime, b.deliveryTime)
  }

  lemma ByTimeIsTotalPreorder()
    ensures TotalPreorder(ByTime())
  {
    forall a: StoredOrder, b: StoredOrder ensures ByTime()(a, b) || ByTime()(b, a) {
      LexLeTotal(a.deliveryTime, b.deliveryTime);
    }
    forall a: StoredOrder, b: StoredOrder, c: StoredOrder | ByTime()(a, b) && ByTime()(b, c)
      ensures ByTime()(a, c)
    {
      LexLeTransitive(a.deliveryTime, b.deliveryTime, c.deliveryTime);
    }
  }

  /**
   * The orders of one delivery date in ascending delivery time (the store's
   * order among equal times is unspecified; this model fixes one). An
   * invalid Date argument is an error.
   */
  function ByDeliveryDate(orders: seq<StoredOrder>, arg: DateArg): (r: Option<seq<StoredOrder>>)
    ensures r.Some? <==> TargetDate(arg).Some?
    ensures r.Some? ==> SortedBy(r.value, ByTime())
    ensures r.Some? ==> forall o :: multiset(r.value)[o] == (if o.deliveryDate == TargetDate(arg).value then multiset(orders)[o] else 0)
  {
    match TargetDate(arg)
    case None => None
    case Some(day) =>
      ByTimeIsTotalPreorder();
      Some(SortBy(Keep(orders, (o: StoredOrder) => o.deliveryDate == day), ByTime()))
  }

  /** One group of the statistics: a status and how many orders have it. */
  datatype StatusCount = StatusCount(status: string, count: nat)

  /** Number of orders with this status. */
  function CountStatus(orders: seq<StoredOrder>, status: string): nat
    decreases |orders|
  {
    if orders == [] then 0
    else CountStatus(orders[..|orders| - 1], status) + (if orders[|orders| - 1].status == status then 1 else 0)
  }

  /** Sum of the counts. */
  function Total(groups: seq<StatusCount>): nat
  {
    if groups == [] then 0 else Total(groups[..|groups| - 1]) + groups[|groups| - 1].count
  }

  lemma {:induction false} TotalUpdate(groups: seq<StatusCount>, k: nat, g: StatusCount)
    requires k < |groups|
    ensures Total(groups[k := g]) == Total(groups) - groups[k].count + g.count
    decreases |groups|
  {
    var u := groups[k := g];
    if k < |groups| - 1 {
      assert u[..|u| - 1] == groups[..|groups| - 1][k := g];
      TotalUpdate(groups[..|groups| - 1], k, g);
    } else {
      assert u[..|u| - 1] == groups[..|groups| - 1];
    }
  }

  predicate HasStatus(groups: seq<StatusCount>, status: string)
  {
    exists i :: 0 <= i < |groups| && groups[i].status == status
  }

  predicate DistinctStatuses(groups: seq<StatusCount>)
  {
    forall i, j :: 0 <= i < j < |groups| ==> groups[i].status != groups[j].status
  }

  /** The position of the group of `status`, if there is one. */
  function GroupIndex(groups: seq<StatusCount>, status: string): (k: Option<nat>)
    ensures k.None? <==> !HasStatus(groups, status)
    ensures k.Some? ==> k.value < |groups| && groups[k.value].status == status
  {
    if groups == [] then None
    else if groups[|groups| - 1].status == status then Some(|groups| - 1)
    else
      var k := GroupIndex(groups[..|groups| - 1], status);
      assert forall i :: 0 <= i < |groups| - 1 ==> groups[..|groups| - 1][i] == groups[i];
      k
  }

  /** `r` is `groups` with one more order of `status` counted. */
  ghost predicate Tallied(groups: seq<StatusCount>, status: string, r: seq<StatusCount>)
  {
    && DistinctStatuses(r)
    && |groups| <= |r| <= |groups| + 1
    && Total(r) == Total(groups) + 1
    && (forall s :: HasStatus(r, s) <==> s == status || HasStatus(groups, s))
    && (forall i :: 0 <= i < |groups| ==> r[i].status == groups[i].status)
    && (forall i :: 0 <= i < |r| ==>
         r[i].count == (if i < |groups| then groups[i].count else 0) + (if r[i].status == status then 1 else 0))
  }

  /** Bumping the group of `status` counts one more order of it. */
  lemma BumpTallied(groups: seq<StatusCount>, k: nat, status: string)
    requires DistinctStatuses(groups)
    requires k < |groups| && groups[k].status == status
    ensures Tallied(groups, status, groups[k := StatusCount(status, groups[k].count + 1)])
  {
    var r := groups[k := StatusCount(status, groups[k].count + 1)];
    TotalUpdate(groups, k, r[k]);
    forall s | HasStatus(r, s) ensures HasStatus(groups, s) {
      var i :| 0 <= i < |r| && r[i].status == s;
      assert groups[i].status == s;
    }
    forall s | HasStatus(groups, s) ensures HasStatus(r, s) {
      var i :| 0 <= i < |groups| && groups[i].status == s;
      assert r[i].status == s;
    }
  }

  /** Opening a group for a status without one counts one order of it. */
  lemma OpenTallied(groups: seq<StatusCount>, status: string)
    requires DistinctStatuses(groups) && !HasStatus(groups, status)
    ensures Tallied(groups, status, groups + [StatusCount(status, 1)])
  {
    var r := groups + [StatusCount(status, 1)];
    assert r[..|r| - 1] == groups;
    assert r[|groups|].status == status;
    forall s | HasStatus(r, s) ensures s == status || HasStatus(groups, s) {
      var i :| 0 <= i < |r| && r[i].status == s;
      if i < |groups| { assert groups[i].status == s; }
    }
    forall s | HasStatus(groups, s) ensures HasStatus(r, s) {
      var i :| 0 <= i < |groups| && groups[i].status == s;
      assert r[i].status == s;
    }
  }

  /** Counts one more order of `status`: bumps its group, or opens a new group at the end. */
  function Tally(groups: seq<StatusCount>, status: string): (r: seq<StatusCount>)
    requires DistinctStatuses(groups)
    ensures DistinctStatuses(r)
    ensures |groups| <= |r| <= |groups| + 1
    ensures Total(r) == Total(groups) + 1
    ensures forall s :: HasStatus(r, s) <==> s == status || HasStatus(groups, s)
    ensures forall i :: 0 <= i < |groups| ==> r[i].status == groups[i].status
    ensures forall i :: 0 <= i < |r| ==>
      r[i].count == (if i < |groups| then groups[i].count else 0) + (if r[i].status == status then 1 else 0)
  {
    match GroupIndex(groups, status)
    case Some(k) =>
      BumpTallied(groups, k, status);
      groups[k := StatusCount(status, groups[k].count + 1)]
    case None =>
      OpenTallied(groups, status);
      groups + [StatusCount(status, 1)]
  }

  /** Some order has this status. */
  predicate AnyHasStatus(orders: seq<StoredOrder>, status: string)
  {
    exists o :: o in orders && o.status == status
  }

  lemma AnyHasStatusSnoc(front: seq<StoredOrder>, last: StoredOrder, status: string)
    ensures AnyHasStatus(front + [last], status) <==> last.status == status || AnyHasStatus(front, status)
  {
    if AnyHasStatus(front + [last], status) && last.status != status {
      var o :| o in front + [last] && o.status == status;
      assert o in front;
    }
    if AnyHasStatus(front, status) {
      var o :| o in front && o.status == status;
      assert o in front + [last];
    }
    if last.status == status {
      assert last in front + [last];
    }
  }

  /** A status that some order has is counted at least once. */
  lemma {:induction false} CountStatusPositive(orders: seq<StoredOrder>, status: string)
    requires CountStatus(orders, status) != 0
    ensures AnyHasStatus(orders, status)
    decreases |orders|
  {
    var front := orders[..|orders| - 1];
    var last := orders[|orders| - 1];
    assert orders == front + [last];
    AnyHasStatusSnoc(front, last, status);
    if last.status != status {
      CountStatusPositive(front, status);
    }
  }

  /**
   * Grouping by status: one group per distinct status present, in order of
   * first appearance, each counting the orders of its status.
   */
  function Stats(orders: seq<StoredOrder>): (groups: seq<StatusCount>)
    ensures DistinctStatuses(groups)
    ensures forall s :: HasStatus(groups, s) <==> AnyHasStatus(orders, s)
    ensures forall i :: 0 <= i < |groups| ==> groups[i].count == CountStatus(orders, groups[i].status)
    decreases |orders|
  {
    if orders == [] then []
    else
      var front := orders[..|orders| - 1];
      var last := orders[|orders| - 1];
      assert orders == front + [last];
      var prev := Stats(front);
      var r := Tally(prev, last.status);
      StatsStep(front, last, prev, r);
      r
  }

  lemma StatsStep(front: seq<StoredOrder>, last: StoredOrder, prev: seq<StatusCount>, r: seq<StatusCount>)
    requires DistinctStatuses(prev)
    requires forall s :: HasStatus(prev, s) <==> AnyHasStatus(front, s)
    requires forall i :: 0 <= i < |prev| ==> prev[i].count == CountStatus(front, prev[i].status)
    requires r == Tally(prev, last.status)
    ensures forall s :: HasStatus(r, s) <==> AnyHasStatus(front + [last], s)
    ensures forall i :: 0 <= i < |r| ==> r[i].count == CountStatus(front + [last], r[i].status)
  {
    var orders := front + [last];
    assert orders[..|orders| - 1] == front;
    forall s ensures HasStatus(r, s) <==> AnyHasStatus(orders, s) {
      AnyHasStatusSnoc(front, last, s);
    }
    forall i | 0 <= i < |r| ensures r[i].count == CountStatus(orders, r[i].status) {
      if i >= |prev| && CountStatus(front, r[i].status) != 0 {
        CountStatusPositive(front, r[i].status);
      }
    }
  }

  /** The counts of the statistics add up to the number of orders. */
  lemma {:induction false} StatsTotal(orders: seq<StoredOrder>)
    ensures Total(Stats(orders)) == |orders|
    decreases |orders|
  {
    if orders != [] {
      StatsTotal(orders[..|orders| - 1]);
    }
  }
}
