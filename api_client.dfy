/**
 * The server-backed front-end: the order board's list and the id of the order
 * being edited, the normalisation of orders loaded from the server, the
 * checks before an order is sent, the status button's successor, and the
 * filter and date-time order of the board. Requests are returned as values;
 * their sending and the answers' arrival are not part of this model. Date
 * parsing and the clock are parameters.
 */
module ApiClient {
  import opened Common
  import opened Text
  import opened Formats
  import opened OrderForm
  import opened OrderSchema
  import opened OrderRoutes

  /** A JSON field the code expects to be a string: a string, or any other value (absent, null, a number). */
  datatype Field = Str(s: string) | NonString

  /** The `items` of a loaded order: a list, or any other value. */
  datatype ApiItems = Items(list: seq<Item>) | NoItemList

  /** An order as the server sends it; `id` is the store's `_id`. */
  datatype ApiOrder = ApiOrder(
    id: string, customerName: string, customerPhone: string, deliveryDate: Field,
    deliveryTime: Field, items: ApiItems, notes: string, totalAmount: string, status: string)

  /** A date text cut before its first 'T', when it has one. */
  function CleanDateText(s: string): (r: string)
    ensures 'T' !in r
    ensures |r| <= |s| && r == s[..|r|]
    ensures 'T' !in s ==> r == s
    ensures 'T' in s ==> |r| < |s| && s[|r|] == 'T'
  {
    if 'T' in s then
      Split(s, 'T')[0]
    else s
  }

  /** A time text with more than two ':'-separated parts cut to the first two. */
  function CleanTimeText(s: string): (r: string)
    ensures Occurrences(s, ':') < 2 ==> r == s
    ensures Occurrences(s, ':') >= 2 ==>
      |r| < |s| && r == s[..|r|] && s[|r|] == ':' && Occurrences(r, ':') == 1
  {
    if Occurrences(s, ':') >= 2 then
      SplitFirstTwo(s, ':');
      var p := Split(s, ':');
      p[0] + [':'] + p[1]
    else s
  }

  /**
   * The normalisation applied to each loaded order: a non-empty string date
   * and time are cleaned, a non-list `items` becomes empty, and every other
   * field is copied.
   */
  function CleanOrderData(o: ApiOrder): (c: ApiOrder)
    ensures c.id == o.id && c.customerName == o.customerName && c.customerPhone == o.customerPhone
    ensures c.notes == o.notes && c.totalAmount == o.totalAmount && c.status == o.status
    ensures c.deliveryDate == if o.deliveryDate.Str? && o.deliveryDate.s != "" then Str(CleanDateText(o.deliveryDate.s)) else o.deliveryDate
    ensures c.deliveryTime == if o.deliveryTime.Str? && o.deliveryTime.s != "" then Str(CleanTimeText(o.deliveryTime.s)) else o.deliveryTime
    ensures c.items == if o.items.Items? then o.items else Items([])
  {
    var date := if o.deliveryDate.Str? && o.deliveryDate.s != "" then Str(CleanDateText(o.deliveryDate.s)) else o.deliveryDate;
    var time := if o.deliveryTime.Str? && o.deliveryTime.s != "" then Str(CleanTimeText(o.deliveryTime.s)) else o.deliveryTime;
    var items := if o.items.Items? then o.items else Items([]);
    o.(deliveryDate := date, deliveryTime := time, items := items)
  }

  /** A cleaned order has a date without 'T', a time with at most one ':' and a list of items. */
  predicate IsClean(o: ApiOrder)
  {
    && (o.deliveryDate.Str? ==> 'T' !in o.deliveryDate.s)
    && (o.deliveryTime.Str? ==> Occurrences(o.deliveryTime.s, ':') < 2)
    && o.items.Items?
  }

  /** Cleaning yields a clean order, leaves a clean order as it is, and is therefore idempotent. */
  lemma CleanOrderDataIdempotent(o: ApiOrder)
    ensures IsClean(CleanOrderData(o))
    ensures IsClean(o) ==> CleanOrderData(o) == o
    ensures CleanOrderData(CleanOrderData(o)) == CleanOrderData(o)
  {
  }

  /**
   * The orders a successful load installs: each one cleaned, in the server's
   * order. Every installed order is clean, and loading an already clean list
   * installs it unchanged.
   */
  function CleanAll(orders: seq<ApiOrder>): (r: seq<ApiOrder>)
    ensures |r| == |orders|
    ensures forall i :: 0 <= i < |r| ==> r[i] == CleanOrderData(orders[i])
    ensures forall i :: 0 <= i < |r| ==> IsClean(r[i])
    ensures (forall i :: 0 <= i < |orders| ==> IsClean(orders[i])) ==> r == orders
  {
    var r := seq(|orders|, i requires 0 <= i < |orders| => CleanOrderData(orders[i]));
    assert forall i :: 0 <= i < |orders| ==> IsClean(r[i]) && (IsClean(orders[i]) ==> r[i] == orders[i]) by {
      forall i | 0 <= i < |orders| ensures IsClean(r[i]) && (IsClean(orders[i]) ==> r[i] == orders[i]) {
        CleanOrderDataIdempotent(orders[i]);
      }
    }
    r
  }

  /** A value of the status button's lookup table, own entries and inherited members alike. */
  datatype JsValue = JsString(text: string) | JsFunction | JsObject | JsUndefined

  /** The names an object literal inherits: the methods of the object prototype, and the prototype itself. */
  const PrototypeMethods: set<string> := {
    "constructor", "hasOwnProperty", "isPrototypeOf", "propertyIsEnumerable", "toLocaleString",
    "toString", "valueOf", "__defineGetter__", "__defineSetter__", "__lookupGetter__", "__lookupSetter__"}
  const PrototypeObject: string := "__proto__"

  /** Property lookup on the five-entry successor table, inherited members included. */
  function StatusMapLookup(status: string): (v: JsValue)
    ensures v.JsString? <==> status in Statuses
    ensures v.JsUndefined? <==> status !in Statuses && status !in PrototypeMethods && status != PrototypeObject
  {
    match status
    case "pendiente" => JsString("confirmado")
    case "confirmado" => JsString("en_preparacion")
    case "en_preparacion" => JsString("listo")
    case "listo" => JsString("entregado")
    case "entregado" => JsString("pendiente")
    case _ =>
      if status in PrototypeMethods then JsFunction
      else if status == PrototypeObject then JsObject
      else JsUndefined
  }

  predicate Truthy(v: JsValue)
  {
    match v
    case JsString(t) => t != ""
    case JsFunction => true
    case JsObject => true
    case JsUndefined => false
  }

  /** The successor exactly as the status button computes it: the table's value when truthy, else 'pendiente'. */
  function NextStatusAsWritten(status: string): (v: JsValue)
    ensures status !in PrototypeMethods && status != PrototypeObject ==> v.JsString? && v.text in Statuses
    ensures status in PrototypeMethods ==> v == JsFunction
  {
    var found := StatusMapLookup(status);
    if Truthy(found) then found else JsString(DefaultStatus)
  }

  /** The `status` the status route reads from the request body the button sends. */
  function PatchStatusOf(v: JsValue): (r: Option<string>)
    ensures v.JsString? ==> r == Some(v.text)
    ensures v.JsFunction? || v.JsUndefined? ==> r.None?
  {
    match v
    case JsString(t) => Some(t)
    case JsFunction => None
    case JsObject => Some("[object Object]")
    case JsUndefined => None
  }

  /** For a status named like an inherited member, the button's request fails the status route's rules. */
  lemma NextStatusAsWrittenRejected(id: string, status: string)
    requires status in PrototypeMethods || status == PrototypeObject
    ensures StatusPatchErrors(id, PatchStatusOf(NextStatusAsWritten(status))) != []
  {
    if status == PrototypeObject {
      assert NextStatusAsWritten(status) == JsObject;
      assert "[object Object]" !in Statuses;
    }
  }

  /** The successor the table is meant to give: the next status of the five-step cycle, 'pendiente' for any other text. */
  function NextServerStatus(status: string): (next: string)
    ensures next in Statuses
    ensures status !in Statuses ==> next == DefaultStatus
  {
    match status
    case "pendiente" => "confirmado"
    case "confirmado" => "en_preparacion"
    case "en_preparacion" => "listo"
    case "listo" => "entregado"
    case "entregado" => "pendiente"
    case _ => DefaultStatus
  }

  /** Away from the inherited names, the button computes exactly the intended successor. */
  lemma NextStatusAsWrittenAgrees(status: string)
    requires status !in PrototypeMethods && status != PrototypeObject
    ensures NextStatusAsWritten(status) == JsString(NextServerStatus(status))
  {
  }

  /** Every intended successor passes the status route. */
  lemma NextServerStatusAccepted(id: string, status: string)
    requires IsMongoId(id)
    ensures StatusPatchErrors(id, Some(NextServerStatus(status))) == []
  {
  }

  /** The table follows the enum's order: each status is followed by the next one, and the last by the first. */
  lemma NextServerStatusFollowsEnum(k: nat)
    requires k < |Statuses|
    ensures NextServerStatus(Statuses[k]) == Statuses[if k + 1 < |Statuses| then k + 1 else 0]
  {
    if k == 0 {
    } else if k == 1 {
    } else if k == 2 {
    } else if k == 3 {
    } else {
      assert k == 4;
    }
  }

  /** Five presses bring a server status back to itself. */
  lemma NextServerStatusCycle(status: string)
    requires status in Statuses
    ensures NextServerStatus(NextServerStatus(NextServerStatus(NextServerStatus(NextServerStatus(status))))) == status
  {
    var k :| 0 <= k < |Statuses| && Statuses[k] == status;
    var k1 := if k + 1 < 5 then k + 1 else 0;
    var k2 := if k1 + 1 < 5 then k1 + 1 else 0;
    var k3 := if k2 + 1 < 5 then k2 + 1 else 0;
    var k4 := if k3 + 1 < 5 then k3 + 1 else 0;
    NextServerStatusFollowsEnum(k);
    assert NextServerStatus(status) == Statuses[k1];
    NextServerStatusFollowsEnum(k1);
    assert NextServerStatus(Statuses[k1]) == Statuses[k2];
    NextServerStatusFollowsEnum(k2);
    assert NextServerStatus(Statuses[k2]) == Statuses[k3];
    NextServerStatusFollowsEnum(k3);
    assert NextServerStatus(Statuses[k3]) == Statuses[k4];
    NextServerStatusFollowsEnum(k4);
    assert NextServerStatus(Statuses[k4]) == Statuses[k];
  }

  /**
   * The checks before an order is sent, in their order: the required fields,
   * the date and time shapes, and a delivery instant not before now. A date
   * and time that do not parse are not before now, so they pass.
   */
  function ValidateOrder(d: FormData, instant: string -> Option<int>, now: int): (r: Option<FormError>)
    ensures r.None? <==>
      && RequiredFieldsError(d).None? && IsDateFormat(d.deliveryDate) && IsClockFormat(d.deliveryTime)
      && !(instant(d.deliveryDate + "T" + d.deliveryTime).Some? && instant(d.deliveryDate + "T" + d.deliveryTime).value < now)
    ensures RequiredFieldsError(d).Some? ==> r == RequiredFieldsError(d)
    ensures r == Some(BadDateFormat) <==> RequiredFieldsError(d).None? && !IsDateFormat(d.deliveryDate)
    ensures r == Some(BadTimeFormat) <==>
      RequiredFieldsError(d).None? && IsDateFormat(d.deliveryDate) && !IsClockFormat(d.deliveryTime)
    ensures r == Some(DeliveryInPast) <==>
      && RequiredFieldsError(d).None? && IsDateFormat(d.deliveryDate) && IsClockFormat(d.deliveryTime)
      && instant(d.deliveryDate + "T" + d.deliveryTime).Some? && instant(d.deliveryDate + "T" + d.deliveryTime).value < now
  {
    if RequiredFieldsError(d).Some? then RequiredFieldsError(d)
    else if !IsDateFormat(d.deliveryDate) then Some(BadDateFormat)
    else if !IsClockFormat(d.deliveryTime) then Some(BadTimeFormat)
    else
      match instant(d.deliveryDate + "T" + d.deliveryTime)
      case Some(t) => if t < now then Some(DeliveryInPast) else None
      case None => None
  }

  /** The JSON body the front-end sends for form data: every text present, no status. */
  function BodyOf(d: FormData): RequestBody
  {
    RequestBody(
      Some(d.customerName), Some(d.customerPhone), Some(d.deliveryDate), Some(d.deliveryTime),
      ItemList(ItemBodies(d.items)), Some(d.notes), Some(d.totalAmount), None)
  }

  function ItemBodies(items: seq<Item>): (r: seq<ItemBody>)
    ensures |r| == |items|
    ensures forall i :: 0 <= i < |items| ==> r[i] == ItemBody(Some(items[i].product), Some(items[i].quantity), Some(items[i].price))
  {
    seq(|items|, i requires 0 <= i < |items| => ItemBody(Some(items[i].product), Some(items[i].quantity), Some(items[i].price)))
  }

  /** A form item's product and quantity are trimmed and non-empty, so the route's item rules hold. */
  lemma FormItemNotBlank(it: Item)
    requires it.product != "" && it.quantity != "" && IsTrimmed(it.product) && IsTrimmed(it.quantity)
    ensures !Blank(ItemBody(Some(it.product), Some(it.quantity), Some(it.price)), false)
    ensures !Blank(ItemBody(Some(it.product), Some(it.quantity), Some(it.price)), true)
  {
    TrimOfTrimmed(it.product);
    TrimOfTrimmed(it.quantity);
  }

  /** The items of a form are all non-blank for the route. */
  lemma FormItemsNotBlank(f: FormFields)
    ensures var items := ItemBodies(FormDataOf(f).items);
      forall i :: 0 <= i < |items| ==> !Blank(items[i], false) && !Blank(items[i], true)
  {
    var d := FormDataOf(f);
    var items := ItemBodies(d.items);
    forall i | 0 <= i < |items| ensures !Blank(items[i], false) && !Blank(items[i], true) {
      assert d.items[i] in d.items;
      FormItemNotBlank(d.items[i]);
    }
  }

  /** A trimmed text within a bound of code units stays within it, for both length rules, when trimmed again. */
  lemma TrimTwiceWithin(s: string, bound: int)
    requires Utf16Length(Trim(s)) <= bound
    ensures Utf16Length(Trim(Trim(s))) <= bound && ValidatorLength(Trim(Trim(s))) <= bound
  {
    TrimIdempotent(s);
  }

  /**
   * The route's rules on the texts of a form's body hold when the trimmed
   * texts fit the schema's bounds in code units, and so do the schema's: the
   * route's length counts no more than the schema's.
   */
  lemma FormScalarsPass(f: FormFields)
    requires Trim(f.customerName) != ""
    requires Utf16Length(Trim(f.customerName)) <= MaxNameLength && Utf16Length(Trim(f.customerPhone)) <= MaxPhoneLength
    requires Utf16Length(Trim(f.notes)) <= MaxNotesLength
    ensures var b := BodyOf(FormDataOf(f));
      && Trim(TextOf(b.customerName)) != "" && ValidatorLength(Trim(TextOf(b.customerName))) <= 100
      && ValidatorLength(Trim(b.customerPhone.value)) <= 20
      && ValidatorLength(Trim(b.notes.value)) <= 500
      && WithinSchemaLengths(b)
  {
    TrimKeepsNonBlank(f.customerName);
    TrimTwiceWithin(f.customerName, MaxNameLength);
    TrimTwiceWithin(f.customerPhone, MaxPhoneLength);
    TrimTwiceWithin(f.notes, MaxNotesLength);
  }

  lemma ClockTimeIsRouteTime(s: string)
    requires IsClockTime(s)
    ensures IsRouteTime(s)
  {
    RouteTimeVersusClockFormat(s);
  }

  /** A form the front-end lets through has every required field. */
  lemma ValidatedHasRequired(d: FormData, instant: string -> Option<int>, now: int)
    requires ValidateOrder(d, instant, now).None?
    ensures RequiredFieldsError(d).None?
  {
  }

  /** The route's rules hold for the body of a form with every required field, within the server's bounds. */
  lemma FormBodyAccepted(f: FormFields, isIso: string -> bool, beforeToday: string -> bool)
    requires RequiredFieldsError(FormDataOf(f)).None?
    requires Utf16Length(Trim(f.customerName)) <= MaxNameLength && Utf16Length(Trim(f.customerPhone)) <= MaxPhoneLength
    requires Utf16Length(Trim(f.notes)) <= MaxNotesLength
    requires IsClockTime(f.deliveryTime)
    requires isIso(f.deliveryDate) && !beforeToday(f.deliveryDate)
    ensures BodyAccepted(BodyOf(FormDataOf(f)), isIso, beforeToday)
  {
    var d := FormDataOf(f);
    var b := BodyOf(d);
    FormScalarsPass(f);
    ClockTimeIsRouteTime(f.deliveryTime);
    FormItemsNotBlank(f);
    assert b.items.ItemList? && |b.items.items| == |d.items| >= 1;
    assert TextOf(b.deliveryDate) == f.deliveryDate && TextOf(b.deliveryTime) == f.deliveryTime;
  }

  /** The route's rules hold for the body of a form the front-end lets through, within the server's bounds. */
  lemma SubmittedFormPassesRoute(f: FormFields, instant: string -> Option<int>, now: int,
                                 isIso: string -> bool, beforeToday: string -> bool)
    requires ValidateOrder(FormDataOf(f), instant, now).None?
    requires Utf16Length(Trim(f.customerName)) <= MaxNameLength && Utf16Length(Trim(f.customerPhone)) <= MaxPhoneLength
    requires Utf16Length(Trim(f.notes)) <= MaxNotesLength
    requires IsClockTime(f.deliveryTime)
    requires isIso(f.deliveryDate) && !beforeToday(f.deliveryDate)
    ensures BodyAccepted(BodyOf(FormDataOf(f)), isIso, beforeToday)
  {
    ValidatedHasRequired(FormDataOf(f), instant, now);
    FormBodyAccepted(f, isIso, beforeToday);
  }

  /**
   * A form the front-end lets through is created by the server when its
   * texts fit the schema's length bounds in UTF-16 code units (the front-end
   * checks no length), its time is a real clock time and
   * the date passes the server's date checks: the front-end's checks cover
   * the rest of the route's and the schema's rules.
   */
  lemma SubmittedFormIsCreated(f: FormFields, instant: string -> Option<int>, now: int,
                               isIso: string -> bool, beforeToday: string -> bool)
    requires ValidateOrder(FormDataOf(f), instant, now).None?
    requires Utf16Length(Trim(f.customerName)) <= MaxNameLength && Utf16Length(Trim(f.customerPhone)) <= MaxPhoneLength
    requires Utf16Length(Trim(f.notes)) <= MaxNotesLength
    requires IsClockTime(f.deliveryTime)
    requires isIso(f.deliveryDate) && !beforeToday(f.deliveryDate)
    ensures CreateOrder(BodyOf(FormDataOf(f)), isIso, beforeToday).Created?
  {
    SubmittedFormPassesRoute(f, instant, now, isIso, beforeToday);
    FormScalarsPass(f);
    RouteAcceptedSaves(BodyOf(FormDataOf(f)), isIso, beforeToday);
  }

  /** The board's filter: by status unless 'all', and by delivery date when one is set. */
  function FilterOrders(orders: seq<ApiOrder>, statusFilter: string, dateFilter: string): (r: seq<ApiOrder>)
    ensures forall o :: o in r <==>
      o in orders && (statusFilter == "all" || o.status == statusFilter) && (dateFilter == "" || o.deliveryDate == Str(dateFilter))
    ensures statusFilter == "all" && dateFilter == "" ==> r == orders
  {
    var byStatus := if statusFilter != "all" then Keep(orders, (o: ApiOrder) => o.status == statusFilter) else orders;
    if dateFilter != "" then Keep(byStatus, (o: ApiOrder) => o.deliveryDate == Str(dateFilter)) else byStatus
  }

  /** The filter keeps the chosen orders as many times as they occur and drops the rest. */
  lemma FilterOrdersCounts(orders: seq<ApiOrder>, statusFilter: string, dateFilter: string, o: ApiOrder)
    ensures multiset(FilterOrders(orders, statusFilter, dateFilter))[o] ==
      if (statusFilter == "all" || o.status == statusFilter) && (dateFilter == "" || o.deliveryDate == Str(dateFilter))
      then multiset(orders)[o] else 0
  {
  }

  /** The text the board parses to order an order: date, 'T', and the time or "00:00" when the time is empty or missing. */
  function SortText(o: ApiOrder): (r: Option<string>)
    ensures r.Some? <==> o.deliveryDate.Str?
    ensures r.Some? && (o.deliveryTime.NonString? || o.deliveryTime.s == "") ==> r.value == o.deliveryDate.s + "T00:00"
    ensures r.Some? && o.deliveryTime.Str? && o.deliveryTime.s != "" ==> r.value == o.deliveryDate.s + "T" + o.deliveryTime.s
  {
    if o.deliveryDate.NonString? then None
    else
      var time := if o.deliveryTime.Str? && o.deliveryTime.s != "" then o.deliveryTime.s else "00:00";
      Some(o.deliveryDate.s + "T" + time)
  }

  /** The instant of an order's delivery, `None` when it does not parse. */
  function DeliveryInstant(o: ApiOrder, instant: string -> Option<int>): Option<int>
  {
    if SortText(o).Some? then instant(SortText(o).value) else None
  }

  /** The board's comparator: two invalid instants are equal, an invalid one comes last, else the difference. */
  function Compare(a: Option<int>, b: Option<int>): (c: int)
    ensures a.None? && b.None? ==> c == 0
    ensures a.None? && b.Some? ==> c > 0
    ensures a.Some? && b.None? ==> c < 0
    ensures a.Some? && b.Some? ==> (c <= 0 <==> a.value <= b.value)
  {
    if a.None? && b.None? then 0
    else if a.None? then 1
    else if b.None? then -1
    else a.value - b.value
  }

  /** "Comes no later than" under the board's comparator. */
  function ByDelivery(instant: string -> Option<int>): (ApiOrder, ApiOrder) -> bool
  {
    (a: ApiOrder, b: ApiOrder) => Compare(DeliveryInstant(a, instant), DeliveryInstant(b, instant)) <= 0
  }

  /** The comparator is consistent, so sorting by it is well defined. */
  lemma ByDeliveryIsTotalPreorder(instant: string -> Option<int>)
    ensures TotalPreorder(ByDelivery(instant))
  {
    var le := ByDelivery(instant);
    forall a: ApiOrder, b: ApiOrder, c: ApiOrder | le(a, b) && le(b, c) ensures le(a, c) {
    }
  }

  /** The orders the board shows: the filtered orders sorted by delivery instant. */
  function Shown(orders: seq<ApiOrder>, statusFilter: string, dateFilter: string, instant: string -> Option<int>): (r: seq<ApiOrder>)
    ensures SortedBy(r, ByDelivery(instant))
    ensures multiset(r) == multiset(FilterOrders(orders, statusFilter, dateFilter))
  {
    ByDeliveryIsTotalPreorder(instant);
    SortBy(FilterOrders(orders, statusFilter, dateFilter), ByDelivery(instant))
  }

  /** On the board, orders whose date-time parses come first, in ascending instant, and the rest after them. */
  lemma ShownInvalidLast(orders: seq<ApiOrder>, statusFilter: string, dateFilter: string,
                         instant: string -> Option<int>, i: nat, j: nat)
    requires i < j < |Shown(orders, statusFilter, dateFilter, instant)|
    ensures var r := Shown(orders, statusFilter, dateFilter, instant);
      && (DeliveryInstant(r[i], instant).None? ==> DeliveryInstant(r[j], instant).None?)
      && (DeliveryInstant(r[j], instant).Some? ==>
            DeliveryInstant(r[i], instant).Some? && DeliveryInstant(r[i], instant).value <= DeliveryInstant(r[j], instant).value)
  {
    var r := Shown(orders, statusFilter, dateFilter, instant);
    assert ByDelivery(instant)(r[i], r[j]);
  }

  /** No filter is active: the board sorts its own list rather than a filtered copy. */
  predicate NoFilter(statusFilter: string, dateFilter: string)
  {
    statusFilter == "all" && dateFilter == ""
  }

  /** The board's list after a render: sorted in place when no filter is active, untouched otherwise; no order is lost or added. */
  function Rendered(orders: seq<ApiOrder>, statusFilter: string, dateFilter: string, instant: string -> Option<int>): (r: seq<ApiOrder>)
    ensures multiset(r) == multiset(orders)
    ensures NoFilter(statusFilter, dateFilter) ==> SortedBy(r, ByDelivery(instant))
    ensures !NoFilter(statusFilter, dateFilter) ==> r == orders
  {
    if NoFilter(statusFilter, dateFilter) then Shown(orders, statusFilter, dateFilter, instant) else orders
  }

  /** The answer to loading the list: a failed request or unreadable answer, or a body with its success flag and data. */
  datatype LoadAnswer = LoadFailed | LoadBody(success: bool, data: Option<seq<ApiOrder>>)

  /** What local storage holds: nothing, a parsed list, or text that does not parse. */
  datatype Saved = NothingSaved | SavedList(orders: seq<ApiOrder>) | Unparsable

  /** A request the board sends to the order routes; a status update carries the `status` the route reads, if any. */
  datatype Request = Post(body: FormData) | Put(id: string, body: FormData) | PatchStatus(id: string, status: Option<string>) | Delete(id: string)

  /** The first order with this `_id`. */
  function FindOrder(orders: seq<ApiOrder>, id: string): (r: Option<nat>)
    ensures r.None? <==> forall j :: 0 <= j < |orders| ==> orders[j].id != id
    ensures r.Some? ==> r.value < |orders| && orders[r.value].id == id && forall j :: 0 <= j < r.value ==> orders[j].id != id
  {
    if orders == [] then None
    else if orders[0].id == id then Some(0)
    else
      match FindOrder(orders[1..], id)
      case None => None
      case Some(k) => Some(k + 1)
  }

  class OrderBoard {
    var orders: seq<ApiOrder>
    var editingOrderId: Option<string>

    constructor()
      ensures orders == [] && editingOrderId == None
    {
      orders := [];
      editingOrderId := None;
    }

    /**
     * Installs the cleaned list of a successful answer (empty when it has no
     * data) and renders it, which sorts it in place when no filter is active;
     * any other answer changes nothing.
     */
    method LoadOrders(answer: LoadAnswer, statusFilter: string, dateFilter: string, instant: string -> Option<int>)
      modifies this
      ensures answer.LoadBody? && answer.success ==>
        orders == Rendered(CleanAll(if answer.data.Some? then answer.data.value else []), statusFilter, dateFilter, instant)
      ensures !(answer.LoadBody? && answer.success) ==> orders == old(orders)
      ensures editingOrderId == old(editingOrderId)
    {
      if answer.LoadBody? && answer.success {
        var data := if answer.data.Some? then answer.data.value else [];
        orders := CleanAll(data);
        var _ := RenderOrders(statusFilter, dateFilter, instant);
      }
    }

    /** Falls back to the list kept in local storage, uncleaned, or to an empty one, and renders it. */
    method LoadOfflineOrders(saved: Saved, statusFilter: string, dateFilter: string, instant: string -> Option<int>)
      modifies this
      ensures orders == Rendered(if saved.SavedList? then saved.orders else [], statusFilter, dateFilter, instant)
      ensures editingOrderId == old(editingOrderId)
    {
      if saved.SavedList? {
        orders := saved.orders;
      } else {
        orders := [];
      }
      var _ := RenderOrders(statusFilter, dateFilter, instant);
    }

    /**
     * Returns the orders to show. Without an active filter the board sorts its
     * own list, so the list itself is left in the shown order.
     */
    method RenderOrders(statusFilter: string, dateFilter: string, instant: string -> Option<int>)
      returns (shown: seq<ApiOrder>)
      modifies this
      ensures shown == Shown(old(orders), statusFilter, dateFilter, instant)
      ensures orders == Rendered(old(orders), statusFilter, dateFilter, instant)
      ensures editingOrderId == old(editingOrderId)
    {
      shown := Shown(orders, statusFilter, dateFilter, instant);
      if NoFilter(statusFilter, dateFilter) {
        orders := shown;
      }
    }

    /** Starts editing an order of the list; an unknown id changes nothing. */
    method EditOrder(id: string) returns (editing: Option<ApiOrder>)
      modifies this
      ensures editing.None? <==> FindOrder(orders, id).None?
      ensures editing.Some? ==> editing.value == orders[FindOrder(orders, id).value]
      ensures editingOrderId == if editing.Some? then Some(id) else old(editingOrderId)
      ensures orders == old(orders)
    {
      var found := FindOrder(orders, id);
      if found.None? {
        return None;
      }
      editing := Some(orders[found.value]);
      editingOrderId := Some(id);
    }

    method ClearForm()
      modifies this
      ensures editingOrderId == None && orders == old(orders)
    {
      editingOrderId := None;
    }

    /** The request for the form: refused by the checks, an update of the order being edited, or a creation. */
    method SaveOrder(f: FormFields, instant: string -> Option<int>, now: int)
      returns (refused: Option<FormError>, request: Option<Request>)
      ensures refused == ValidateOrder(FormDataOf(f), instant, now)
      ensures refused.Some? <==> request.None?
      ensures request.Some? && editingOrderId.Some? && editingOrderId.value != "" ==>
        request.value == Put(editingOrderId.value, FormDataOf(f))
      ensures request.Some? && !(editingOrderId.Some? && editingOrderId.value != "") ==>
        request.value == Post(FormDataOf(f))
    {
      var data := GetFormData(f);
      refused := ValidateOrder(data, instant, now);
      if refused.Some? {
        return refused, None;
      }
      if editingOrderId.Some? && editingOrderId.value != "" {
        request := Some(Put(editingOrderId.value, data));
      } else {
        request := Some(Post(data));
      }
    }

    /**
     * The status request for an order of the list, carrying the successor the
     * lookup table gives; an unknown id sends nothing. Away from the names an
     * object inherits, that is the intended successor, a status of the enum.
     */
    method ChangeOrderStatus(id: string) returns (request: Option<Request>)
      ensures request.None? <==> FindOrder(orders, id).None?
      ensures request.Some? ==>
        var status := orders[FindOrder(orders, id).value].status;
        && request.value == PatchStatus(id, PatchStatusOf(NextStatusAsWritten(status)))
        && (status !in PrototypeMethods && status != PrototypeObject ==>
              request.value.status == Some(NextServerStatus(status)) && request.value.status.value in Statuses)
    {
      var found := FindOrder(orders, id);
      if found.None? {
        return None;
      }
      var status := orders[found.value].status;
      if status !in PrototypeMethods && status != PrototypeObject {
        NextStatusAsWrittenAgrees(status);
      }
      request := Some(PatchStatus(id, PatchStatusOf(NextStatusAsWritten(status))));
    }

    /** The delete request, sent only when the user confirms. */
    method DeleteOrder(id: string, confirmed: bool) returns (request: Option<Request>)
      ensures request.Some? <==> confirmed
      ensures request.Some? ==> request.value == Delete(id)
    {
      if !confirmed {
        return None;
      }
      request := Some(Delete(id));
    }
  }
}
