/**
 * The server's order routes: the request-body rules run before an order is
 * created or updated, the 400 answer when a rule fails, the list query's
 * rules, its filter and its page arithmetic, and the status update's rule.
 * ISO 8601 recognition and "before today" are parameters (they depend on
 * the date library and the clock). Absent fields are `None`; present fields
 * are strings, except `items`, which may be absent, a list or something else.
 */
module OrderRoutes {
  import opened Common
  import opened Text
  import opened Formats
  import opened OrderSchema

  datatype ItemBody = ItemBody(product: Option<string>, quantity: Option<string>, price: Option<string>)

  datatype ItemsBody = ItemsAbsent | NotAList | ItemList(items: seq<ItemBody>)

  datatype RequestBody = RequestBody(
    customerName: Option<string>, customerPhone: Option<string>, deliveryDate: Option<string>,
    deliveryTime: Option<string>, items: ItemsBody, notes: Option<string>,
    totalAmount: Option<string>, status: Option<string>)

  datatype BodyField =
    | NameField | PhoneField | DateField | TimeField | ItemsField
    | ProductField(index: nat) | QuantityField(index: nat) | NotesField | StatusField | IdParam

  datatype ValidationError = ValidationError(field: BodyField, message: string)

  const NameRequiredMessage := "El nombre del cliente es requerido"
  const NameTooLongMessage := "El nombre no puede exceder 100 caracteres"
  const PhoneTooLongMessage := "El teléfono no puede exceder 20 caracteres"
  const BadDateMessage := "Fecha de entrega inválida"
  const PastDateMessage := "La fecha de entrega no puede ser anterior a hoy"
  const BadTimeMessage := "Hora de entrega inválida (formato HH:MM)"
  const NoItemsMessage := "Debe incluir al menos un producto"
  const ProductRequiredMessage := "El nombre del producto es requerido"
  const QuantityRequiredMessage := "La cantidad es requerida"
  const NotesTooLongMessage := "Las notas no pueden exceder 500 caracteres"
  const BadStatusMessage := "Estado inválido"
  const BadIdMessage := "ID de pedido inválido"

  /** The text a validator sees: an absent value reads as the empty string. */
  function TextOf(v: Option<string>): string
  {
    if v.Some? then v.value else ""
  }

  /** An item line whose trimmed product (or quantity) is empty. */
  predicate Blank(it: ItemBody, quantity: bool)
  {
    Trim(TextOf(if quantity then it.quantity else it.product)) == ""
  }

  /** The error the product (or quantity) rule reports for item `k`. */
  function BlankItemError(k: nat, quantity: bool): ValidationError
  {
    if quantity then ValidationError(QuantityField(k), QuantityRequiredMessage)
    else ValidationError(ProductField(k), ProductRequiredMessage)
  }

  /** Which item lines are blank in the product (or quantity). */
  function BlankFlags(items: seq<ItemBody>, quantity: bool): (r: seq<bool>)
    ensures |r| == |items|
    ensures forall i :: 0 <= i < |items| ==> r[i] == Blank(items[i], quantity)
  {
    seq(|items|, i requires 0 <= i < |items| => Blank(items[i], quantity))
  }

  /** One error per flagged item line, in item order. */
  function FlaggedErrors(flags: seq<bool>, quantity: bool): (r: seq<ValidationError>)
    ensures r == [] <==> forall i :: 0 <= i < |flags| ==> !flags[i]
    ensures forall e :: e in r ==>
      (e.field.ProductField? || e.field.QuantityField?) && e.field.index < |flags| && flags[e.field.index] && e == BlankItemError(e.field.index, quantity)
    ensures forall i :: 0 <= i < |flags| && flags[i] ==> BlankItemError(i, quantity) in r
    ensures forall a, c :: 0 <= a < c < |r| ==> r[a].field.index < r[c].field.index
    decreases |flags|
  {
    if flags == [] then []
    else
      var k := |flags| - 1;
      var front := FlaggedErrors(flags[..k], quantity);
      assert forall i :: 0 <= i < k ==> flags[..k][i] == flags[i];
      if flags[k] then front + [BlankItemError(k, quantity)] else front
  }

  /** The errors of the product (or quantity) rule: one per blank item, in item order. */
  function BlankItemErrors(items: seq<ItemBody>, quantity: bool): (r: seq<ValidationError>)
    ensures r == [] <==> forall i :: 0 <= i < |items| ==> !Blank(items[i], quantity)
    ensures forall e :: e in r ==>
      (e.field.ProductField? || e.field.QuantityField?) && e.field.index < |items| && Blank(items[e.field.index], quantity) && e == BlankItemError(e.field.index, quantity)
    ensures forall i :: 0 <= i < |items| && Blank(items[i], quantity) ==> BlankItemError(i, quantity) in r
    ensures forall a, c :: 0 <= a < c < |r| ==> r[a].field.index < r[c].field.index
  {
    FlaggedErrors(BlankFlags(items, quantity), quantity)
  }

  /**
   * The body rules in the order the route lists them. Every rule runs: a
   * field can report several errors, and items report one error per blank
   * product and per blank quantity.
   */
  function BodyErrors(b: RequestBody, isIso: string -> bool, beforeToday: string -> bool): (r: seq<ValidationError>)
    ensures r == [] <==> BodyAccepted(b, isIso, beforeToday)
  {
    var name := Trim(TextOf(b.customerName));
    var items := if b.items.ItemList? then b.items.items else [];
    var products := BlankItemErrors(items, false);
    var quantities := BlankItemErrors(items, true);
    var head :=
      (if name == "" then [ValidationError(NameField, NameRequiredMessage)] else [])
      + (if ValidatorLength(name) > 100 then [ValidationError(NameField, NameTooLongMessage)] else [])
      + (if b.customerPhone.Some? && ValidatorLength(Trim(b.customerPhone.value)) > 20 then [ValidationError(PhoneField, PhoneTooLongMessage)] else [])
      + (if !isIso(TextOf(b.deliveryDate)) then [ValidationError(DateField, BadDateMessage)] else [])
      + (if b.deliveryDate.Some? && beforeToday(b.deliveryDate.value) then [ValidationError(DateField, PastDateMessage)] else [])
      + (if !IsRouteTime(TextOf(b.deliveryTime)) then [ValidationError(TimeField, BadTimeMessage)] else [])
      + (if !b.items.ItemList? || |b.items.items| < 1 then [ValidationError(ItemsField, NoItemsMessage)] else []);
    var tail :=
      (if b.notes.Some? && ValidatorLength(Trim(b.notes.value)) > 500 then [ValidationError(NotesField, NotesTooLongMessage)] else [])
      + (if b.status.Some? && b.status.value !in Statuses then [ValidationError(StatusField, BadStatusMessage)] else []);
    var r := head + products + quantities + tail;
    assert r == [] <==> head == [] && products == [] && quantities == [] && tail == [] by {
      assert |r| == |head| + |products| + |quantities| + |tail|;
    }
    r
  }

  /** The body rules stated directly. */
  predicate BodyAccepted(b: RequestBody, isIso: string -> bool, beforeToday: string -> bool)
  {
    && Trim(TextOf(b.customerName)) != "" && ValidatorLength(Trim(TextOf(b.customerName))) <= 100
    && (b.customerPhone.Some? ==> ValidatorLength(Trim(b.customerPhone.value)) <= 20)
    && isIso(TextOf(b.deliveryDate)) && !(b.deliveryDate.Some? && beforeToday(b.deliveryDate.value))
    && IsRouteTime(TextOf(b.deliveryTime))
    && b.items.ItemList? && |b.items.items| >= 1
    && (forall i :: 0 <= i < |b.items.items| ==> !Blank(b.items.items[i], false) && !Blank(b.items.items[i], true))
    && (b.notes.Some? ==> ValidatorLength(Trim(b.notes.value)) <= 500)
    && (b.status.Some? ==> b.status.value in Statuses)
  }

  /** The 400 answer of the validation middleware, or passing the request on. */
  datatype Gate = BadRequest(errors: seq<ValidationError>) | Next

  function HandleValidationErrors(errors: seq<ValidationError>): (r: Gate)
    ensures r.Next? <==> errors == []
    ensures r.BadRequest? ==> r.errors == errors && |r.errors| > 0
  {
    if errors != [] then BadRequest(errors) else Next
  }

  /** An item line after the rules' trimming of its product and quantity. */
  function ItemInputOfBody(it: ItemBody): ItemInput
  {
    ItemInput(Some(Trim(TextOf(it.product))), Some(Trim(TextOf(it.quantity))), it.price)
  }

  function ItemInputsOfBody(items: seq<ItemBody>): (r: seq<ItemInput>)
    ensures |r| == |items|
    ensures forall i :: 0 <= i < |items| ==> r[i] == ItemInputOfBody(items[i])
  {
    seq(|items|, i requires 0 <= i < |items| => ItemInputOfBody(items[i]))
  }

  /** The body after the rules' trimming, as handed to the model constructor. */
  function ToInput(b: RequestBody): (x: OrderInput)
    ensures x.customerName.Some? && IsTrimmed(x.customerName.value)
    ensures x.customerPhone.Some? <==> b.customerPhone.Some?
    ensures x.customerPhone.Some? ==> IsTrimmed(x.customerPhone.value)
    ensures x.notes.Some? <==> b.notes.Some?
    ensures x.notes.Some? ==> IsTrimmed(x.notes.value)
    ensures x.deliveryDate == b.deliveryDate && x.deliveryTime == b.deliveryTime && x.status == b.status
    ensures x.items.Some? <==> b.items.ItemList?
    ensures x.items.Some? ==> |x.items.value| == |b.items.items|
    ensures x.customerName == Some(Trim(TextOf(b.customerName)))
    ensures x.customerPhone == TrimOpt(b.customerPhone) && x.notes == TrimOpt(b.notes)
    ensures x.totalAmount == TrimOpt(b.totalAmount)
    ensures x.items.Some? ==> forall i :: 0 <= i < |x.items.value| ==>
      x.items.value[i] == ItemInput(Some(Trim(TextOf(b.items.items[i].product))),
                                    Some(Trim(TextOf(b.items.items[i].quantity))), b.items.items[i].price)
  {
    OrderInput(
      Some(Trim(TextOf(b.customerName))), TrimOpt(b.customerPhone), b.deliveryDate, b.deliveryTime,
      if b.items.ItemList? then Some(ItemInputsOfBody(b.items.items)) else None,
      TrimOpt(b.notes), TrimOpt(b.totalAmount), b.status)
  }

  /** How a create request ends: 400 with the rule errors, 201 with the saved order, or 500 when saving fails. */
  datatype CreateOutcome = Rejected(errors: seq<ValidationError>) | Created(order: StoredOrder) | SaveFailed(faults: map<Path, Rule>)

  function CreateOrder(b: RequestBody, isIso: string -> bool, beforeToday: string -> bool): (r: CreateOutcome)
    ensures r.Rejected? <==> !BodyAccepted(b, isIso, beforeToday)
    ensures r.Rejected? ==> r.errors == BodyErrors(b, isIso, beforeToday) != []
    ensures r.Created? <==> BodyAccepted(b, isIso, beforeToday) && Acceptable(ToInput(b))
    ensures r.Created? ==> WellFormed(r.order)
    ensures r.Created? ==> Validate(ToInput(b)) == Ok(r.order)
    ensures r.SaveFailed? ==> Validate(ToInput(b)) == Err(r.faults)
  {
    match HandleValidationErrors(BodyErrors(b, isIso, beforeToday))
    case BadRequest(errors) => Rejected(errors)
    case Next =>
      match Validate(ToInput(b))
      case Ok(o) => Created(o)
      case Err(faults) => SaveFailed(faults)
  }

  /**
   * The order the schema saves for a body (the `Created` answer of
   * `CreateOrder`) holds the body's values: name, phone, notes, total and
   * each item's product, quantity and price trimmed once (the schema's
   * second trim changes nothing), and the date and time as sent.
   */
  lemma SavedHoldsBody(b: RequestBody, o: StoredOrder)
    requires Validate(ToInput(b)) == Ok(o)
    ensures o.customerName == Trim(TextOf(b.customerName))
    ensures o.customerPhone == TrimOpt(b.customerPhone) && o.notes == TrimOpt(b.notes)
    ensures Some(o.deliveryDate) == b.deliveryDate && Some(o.deliveryTime) == b.deliveryTime
    ensures b.totalAmount.Some? ==> o.totalAmount == Trim(b.totalAmount.value)
    ensures |o.items| == if b.items.ItemList? then |b.items.items| else 0
    ensures forall i :: 0 <= i < |o.items| ==>
           && o.items[i].product == Trim(TextOf(b.items.items[i].product))
           && o.items[i].quantity == Trim(TextOf(b.items.items[i].quantity))
           && (b.items.items[i].price.Some? ==> o.items[i].price == Trim(b.items.items[i].price.value))
  {
    SavedScalarsOfBody(b, o);
    SavedItemsOfBody(b, o);
  }

  lemma SavedScalarsOfBody(b: RequestBody, o: StoredOrder)
    requires SavedFrom(o, ToInput(b))
    ensures o.customerName == Trim(TextOf(b.customerName))
    ensures o.customerPhone == TrimOpt(b.customerPhone) && o.notes == TrimOpt(b.notes)
    ensures Some(o.deliveryDate) == b.deliveryDate && Some(o.deliveryTime) == b.deliveryTime
    ensures b.totalAmount.Some? ==> o.totalAmount == Trim(b.totalAmount.value)
  {
    var x := ToInput(b);
    TrimIdempotent(TextOf(b.customerName));
    TrimIdempotent(x.customerName.value);
    TrimOptTwice(b.totalAmount);
    TrimOptOfTrimmed(x.customerPhone);
    TrimOptOfTrimmed(x.notes);
  }

  lemma SavedItemsOfBody(b: RequestBody, o: StoredOrder)
    requires SavedFrom(o, ToInput(b))
    ensures |o.items| == if b.items.ItemList? then |b.items.items| else 0
    ensures forall i :: 0 <= i < |o.items| ==>
           && o.items[i].product == Trim(TextOf(b.items.items[i].product))
           && o.items[i].quantity == Trim(TextOf(b.items.items[i].quantity))
           && (b.items.items[i].price.Some? ==> o.items[i].price == Trim(b.items.items[i].price.value))
  {
    var x := ToInput(b);
    forall i | 0 <= i < |o.items|
      ensures o.items[i].product == Trim(TextOf(b.items.items[i].product))
      ensures o.items[i].quantity == Trim(TextOf(b.items.items[i].quantity))
      ensures b.items.items[i].price.Some? ==> o.items[i].price == Trim(b.items.items[i].price.value)
    {
      TrimIdempotent(TextOf(b.items.items[i].product));
      TrimIdempotent(TextOf(b.items.items[i].quantity));
    }
  }

  lemma TrimOptTwice(v: Option<string>)
    ensures v.Some? ==> Trim(TrimOpt(v).value) == TrimOpt(v).value
  {
    if v.Some? { TrimIdempotent(v.value); }
  }

  lemma TrimKeepsNonBlank(s: string)
    requires Trim(s) != ""
    ensures Trim(Trim(s)) == Trim(s) != ""
  {
    TrimIdempotent(s);
  }

  /** An item line with a non-blank product and quantity passes the schema's item rules once trimmed. */
  lemma ItemInputOfBodyAcceptable(it: ItemBody)
    requires !Blank(it, false) && !Blank(it, true)
    ensures ItemAcceptable(ItemInputOfBody(it))
  {
    TrimKeepsNonBlank(TextOf(it.product));
    TrimKeepsNonBlank(TextOf(it.quantity));
  }

  /** The trimmed texts fit the schema's bounds, counted in UTF-16 code units as `maxlength` counts them. */
  predicate WithinSchemaLengths(b: RequestBody)
  {
    && Utf16Length(Trim(TextOf(b.customerName))) <= MaxNameLength
    && (b.customerPhone.Some? ==> Utf16Length(Trim(b.customerPhone.value)) <= MaxPhoneLength)
    && (b.notes.Some? ==> Utf16Length(Trim(b.notes.value)) <= MaxNotesLength)
  }

  /** The length-checked texts hold no character beyond U+FFFF and no variation selector. */
  predicate NarrowTexts(b: RequestBody)
  {
    && Narrow(TextOf(b.customerName))
    && (b.customerPhone.Some? ==> Narrow(b.customerPhone.value))
    && (b.notes.Some? ==> Narrow(b.notes.value))
  }

  /** On narrow text the route's length rules and the schema's count alike, so the route's bounds are the schema's. */
  lemma NarrowWithinSchemaLengths(b: RequestBody, isIso: string -> bool, beforeToday: string -> bool)
    requires BodyAccepted(b, isIso, beforeToday) && NarrowTexts(b)
    ensures WithinSchemaLengths(b)
  {
    TrimKeepsNarrow(TextOf(b.customerName));
    NarrowLengths(Trim(TextOf(b.customerName)));
    if b.customerPhone.Some? {
      TrimKeepsNarrow(b.customerPhone.value);
      NarrowLengths(Trim(b.customerPhone.value));
    }
    if b.notes.Some? {
      TrimKeepsNarrow(b.notes.value);
      NarrowLengths(Trim(b.notes.value));
    }
  }

  /** The route's scalar rules, with texts within the schema's bounds, imply the schema's once the values are trimmed. */
  lemma AcceptedScalars(b: RequestBody, isIso: string -> bool, beforeToday: string -> bool)
    requires BodyAccepted(b, isIso, beforeToday) && WithinSchemaLengths(b)
    ensures var x := ToInput(b);
      && x.customerName.Some? && Trim(x.customerName.value) != "" && Utf16Length(Trim(x.customerName.value)) <= MaxNameLength
      && (x.customerPhone.Some? ==> Utf16Length(Trim(x.customerPhone.value)) <= MaxPhoneLength)
      && (x.notes.Some? ==> Utf16Length(Trim(x.notes.value)) <= MaxNotesLength)
      && (x.status.Some? ==> x.status.value in Statuses)
  {
    TrimIdempotent(TextOf(b.customerName));
    TrimOptTwice(b.customerPhone);
    TrimOptTwice(b.notes);
  }

  /** The route's rules, with a `YYYY-MM-DD` date, a two-digit hour and texts within the schema's bounds, imply the schema's. */
  lemma RouteAcceptedIsAcceptable(b: RequestBody, isIso: string -> bool, beforeToday: string -> bool)
    requires BodyAccepted(b, isIso, beforeToday) && WithinSchemaLengths(b)
    requires b.deliveryDate.Some? && IsDateFormat(b.deliveryDate.value)
    requires |TextOf(b.deliveryTime)| == 5
    ensures Acceptable(ToInput(b))
  {
    var x := ToInput(b);
    RouteTimeVersusClockFormat(TextOf(b.deliveryTime));
    AcceptedScalars(b, isIso, beforeToday);
    var items := x.items.value;
    forall i | 0 <= i < |items| ensures ItemAcceptable(items[i]) {
      ItemInputOfBodyAcceptable(b.items.items[i]);
    }
  }

  /**
   * A body the route accepts, with a `YYYY-MM-DD` date and a two-digit hour,
   * is saved exactly when its trimmed name, phone and notes fit the schema's
   * bounds in UTF-16 code units; otherwise the save fails with a 500. The
   * route's other rules are at least as strict as the schema's.
   */
  lemma RouteAcceptedSaves(b: RequestBody, isIso: string -> bool, beforeToday: string -> bool)
    requires BodyAccepted(b, isIso, beforeToday)
    requires b.deliveryDate.Some? && IsDateFormat(b.deliveryDate.value)
    requires |TextOf(b.deliveryTime)| == 5
    ensures CreateOrder(b, isIso, beforeToday).Created? <==> WithinSchemaLengths(b)
    ensures CreateOrder(b, isIso, beforeToday).Created? || CreateOrder(b, isIso, beforeToday).SaveFailed?
  {
    if WithinSchemaLengths(b) {
      RouteAcceptedIsAcceptable(b, isIso, beforeToday);
    } else {
      TrimIdempotent(TextOf(b.customerName));
      TrimOptTwice(b.customerPhone);
      TrimOptTwice(b.notes);
    }
  }

  /** Without characters beyond U+FFFF or variation selectors, such a body is always saved. */
  lemma NarrowRouteAcceptedSaves(b: RequestBody, isIso: string -> bool, beforeToday: string -> bool)
    requires BodyAccepted(b, isIso, beforeToday) && NarrowTexts(b)
    requires b.deliveryDate.Some? && IsDateFormat(b.deliveryDate.value)
    requires |TextOf(b.deliveryTime)| == 5
    ensures CreateOrder(b, isIso, beforeToday).Created?
  {
    NarrowWithinSchemaLengths(b, isIso, beforeToday);
    RouteAcceptedSaves(b, isIso, beforeToday);
  }

  /** Fifty-one emoji: 51 characters for the route's length rule, 102 code units for the schema's. */
  const WideName: string := Repeat('\U{1F600}', 51)

  lemma WideNameLengths()
    ensures Trim(WideName) == WideName
    ensures ValidatorLength(WideName) == 51 && Utf16Length(WideName) == 102
  {
    RepeatLengths('\U{1F600}', 51);
    var c := '\U{1F600}';
    AstralNotSpace(c);
    assert WideName[0] == c && WideName[|WideName| - 1] == c;
    TrimOfTrimmed(WideName);
  }

  /** A body the route accepts with that name (within its bound of 100) fails the schema's `maxlength` of 100: a 500. */
  lemma WideNameFailsToSave(b: RequestBody, isIso: string -> bool, beforeToday: string -> bool)
    requires BodyAccepted(b, isIso, beforeToday)
    requires b.customerName == Some(WideName)
    ensures CreateOrder(b, isIso, beforeToday).SaveFailed?
  {
    WideNameLengths();
    TrimIdempotent(WideName);
    assert !Acceptable(ToInput(b));
  }

  /**
   * A time with one hour digit, which the route's pattern admits (as in
   * "9:30"), passes the route and fails the schema: such a create request
   * ends in a 500, whatever the rest of the body.
   */
  lemma OneDigitHourFailsToSave(b: RequestBody, isIso: string -> bool, beforeToday: string -> bool)
    requires BodyAccepted(b, isIso, beforeToday)
    requires |TextOf(b.deliveryTime)| == 4
    ensures CreateOrder(b, isIso, beforeToday).SaveFailed?
  {
    RouteTimeVersusClockFormat(TextOf(b.deliveryTime));
    assert !IsClockFormat(TextOf(b.deliveryTime));
  }

  /**
   * A date the route's ISO 8601 check admits in another form than
   * `YYYY-MM-DD` (a year and month, as in "2030-06", or a date with a time, as
   * in "2030-01-01T10:00") passes the route and fails the schema's pattern:
   * such a create request ends in a 500, whatever the rest of the body.
   */
  lemma OtherIsoDateFailsToSave(b: RequestBody, isIso: string -> bool, beforeToday: string -> bool)
    requires BodyAccepted(b, isIso, beforeToday)
    requires !(b.deliveryDate.Some? && IsDateFormat(b.deliveryDate.value))
    ensures CreateOrder(b, isIso, beforeToday).SaveFailed?
    ensures !IsDateFormat("2030-06") && !IsDateFormat("2030-01-01T10:00")
  {
    assert !Acceptable(ToInput(b));
  }

  predicate IsHexDigit(c: char)
  {
    IsDigit(c) || 'a' <= c <= 'f' || 'A' <= c <= 'F'
  }

  predicate AllHex(s: string)
  {
    forall i :: 0 <= i < |s| ==> IsHexDigit(s[i])
  }

  /** validator.js `isHexadecimal`: one or more hexadecimal digits, after an optional `0x` or `0h` in either case. */
  predicate IsHexadecimal(s: string)
  {
    || (|s| >= 1 && AllHex(s))
    || (|s| >= 3 && s[0] == '0' && s[1] in {'x', 'X', 'h', 'H'} && AllHex(s[2..]))
  }

  /** validator.js `isMongoId`: hexadecimal, prefix included, and twenty-four characters long. */
  predicate IsMongoId(id: string)
  {
    |id| == 24 && IsHexadecimal(id)
  }

  /** A prefixed id passes the rule although it is not twenty-four hexadecimal digits. */
  lemma PrefixedIdPasses()
    ensures IsMongoId("0x0123456789abcdef012345")
    ensures !AllHex("0x0123456789abcdef012345")
  {
    var id := "0x0123456789abcdef012345";
    assert !IsHexDigit(id[1]);
    assert AllHex(id[2..]) by {
      forall i | 0 <= i < |id[2..]| ensures IsHexDigit(id[2..][i]) {
      }
    }
  }

  /** The id rule of every route with an `:id`, which runs first. */
  function IdErrors(id: string): (r: seq<ValidationError>)
    ensures r == [] <==> IsMongoId(id)
    ensures r != [] ==> r == [ValidationError(IdParam, BadIdMessage)]
  {
    if IsMongoId(id) then [] else [ValidationError(IdParam, BadIdMessage)]
  }

  /** The rules of a full update: the id rule, then every body rule of a create. */
  function UpdateErrors(id: string, b: RequestBody, isIso: string -> bool, beforeToday: string -> bool): (r: seq<ValidationError>)
    ensures r == [] <==> IsMongoId(id) && BodyAccepted(b, isIso, beforeToday)
    ensures IsMongoId(id) ==> r == BodyErrors(b, isIso, beforeToday)
  {
    IdErrors(id) + BodyErrors(b, isIso, beforeToday)
  }

  /** The status update's rules: the id rule, then `status` required and in the enum. */
  function StatusPatchErrors(id: string, status: Option<string>): (r: seq<ValidationError>)
    ensures r == [] <==> IsMongoId(id) && status.Some? && status.value in Statuses
    ensures IsMongoId(id) && r != [] ==> r == [ValidationError(StatusField, BadStatusMessage)]
  {
    IdErrors(id) + (if status.Some? && status.value in Statuses then [] else [ValidationError(StatusField, BadStatusMessage)])
  }

  /** The list query. */
  datatype Query = Query(status: Option<string>, date: Option<string>, page: Option<string>, limit: Option<string>)

  datatype QueryField = StatusParam | DateParam | PageParam | LimitParam

  /** The query rules, in order; each absent parameter is skipped. */
  function QueryErrors(q: Query, isIso: string -> bool): (r: seq<QueryField>)
    ensures r == [] <==> QueryAccepted(q, isIso)
  {
    (if q.status.Some? && q.status.value !in Statuses then [StatusParam] else [])
    + (if q.date.Some? && !isIso(q.date.value) then [DateParam] else [])
    + (if q.page.Some? && !(IsIntText(q.page.value) && IntValue(q.page.value) >= 1) then [PageParam] else [])
    + (if q.limit.Some? && !(IsIntText(q.limit.value) && 1 <= IntValue(q.limit.value) <= 100) then [LimitParam] else [])
  }

  predicate QueryAccepted(q: Query, isIso: string -> bool)
  {
    && (q.status.Some? ==> q.status.value in Statuses)
    && (q.date.Some? ==> isIso(q.date.value))
    && (q.page.Some? ==> IsIntText(q.page.value) && IntValue(q.page.value) >= 1)
    && (q.limit.Some? ==> IsIntText(q.limit.value) && 1 <= IntValue(q.limit.value) <= 100)
  }

  const DefaultPage: int := 1
  const DefaultLimit: int := 50

  /** The requested page, 1 when absent. */
  function PageNumber(q: Query, isIso: string -> bool): (p: int)
    requires QueryAccepted(q, isIso)
    ensures p >= 1
    ensures q.page.None? ==> p == DefaultPage
    ensures q.page.Some? ==> p == IntValue(q.page.value)
  {
    if q.page.Some? then IntValue(q.page.value) else DefaultPage
  }

  /** The page size, 50 when absent. */
  function PageSize(q: Query, isIso: string -> bool): (n: int)
    requires QueryAccepted(q, isIso)
    ensures 1 <= n <= 100
    ensures q.limit.None? ==> n == DefaultLimit
    ensures q.limit.Some? ==> n == IntValue(q.limit.value)
  {
    if q.limit.Some? then IntValue(q.limit.value) else DefaultLimit
  }

  /** How many matching orders the page skips. */
  function Skip(page: int, limit: int): (s: int)
    requires page >= 1 && limit >= 1
    ensures s >= 0
  {
    (page - 1) * limit
  }

  /** `Math.ceil(total / limit)`: the fewest pages of `limit` orders that hold `total` orders. */
  function PageCount(total: nat, limit: int): (n: nat)
    requires limit >= 1
    ensures n * limit >= total
    ensures n > 0 ==> (n - 1) * limit < total
  {
    var n := (total + limit - 1) / limit;
    var r := (total + limit - 1) % limit;
    assert total + limit - 1 == n * limit + r;
    assert (n - 1) * limit == n * limit - limit;
    n
  }

  function Min(a: int, b: int): int { if a <= b then a else b }

  /** The orders on one page of the matching list. */
  function PageOf<T>(all: seq<T>, page: int, limit: int): (r: seq<T>)
    requires page >= 1 && limit >= 1
    ensures |r| <= limit
  {
    var from := Min(Skip(page, limit), |all|);
    var to := Min(Skip(page, limit) + limit, |all|);
    all[from..to]
  }

  /** Pages 1 to `n`, one after the other. */
  function FirstPages<T>(all: seq<T>, limit: int, n: nat): seq<T>
    requires limit >= 1
  {
    if n == 0 then [] else FirstPages(all, limit, n - 1) + PageOf(all, n, limit)
  }

  lemma {:induction false} FirstPagesPrefix<T>(all: seq<T>, limit: int, n: nat)
    requires limit >= 1
    ensures FirstPages(all, limit, n) == all[..Min(n * limit, |all|)]
  {
    if n > 0 {
      FirstPagesPrefix(all, limit, n - 1);
      assert Skip(n, limit) == (n - 1) * limit;
      assert (n - 1) * limit + limit == n * limit;
      var a := Min((n - 1) * limit, |all|);
      var b := Min(n * limit, |all|);
      assert all[..a] + all[a..b] == all[..b];
    }
  }

  lemma MulMonotone(a: int, b: int, c: int)
    requires a <= b && c >= 0
    ensures a * c <= b * c
  {
    assert b * c - a * c == (b - a) * c;
  }

  /** The pages the response announces hold every matching order exactly once, in order; later pages are empty. */
  lemma PagesCoverAll<T>(all: seq<T>, limit: int, page: int)
    requires limit >= 1 && page >= 1
    ensures FirstPages(all, limit, PageCount(|all|, limit)) == all
    ensures page > PageCount(|all|, limit) ==> PageOf(all, page, limit) == []
  {
    var n := PageCount(|all|, limit);
    FirstPagesPrefix(all, limit, n);
    assert all[..|all|] == all;
    if page > n {
      MulMonotone(n, page - 1, limit);
    }
  }

  /** The answer to a list query: one page of the matching orders, and the pagination block. */
  datatype ListAnswer<T> = ListAnswer(data: seq<T>, page: int, limit: int, total: nat, pages: nat)

  /**
   * `GET /` on an accepted query, given the orders that match its filter in
   * the order the store sorts them (delivery date, then time):
   * the requested page of them, with the page number, page size, total and
   * page count the response announces.
   */
  function ListOrders<T>(matching: seq<T>, q: Query, isIso: string -> bool): (r: ListAnswer<T>)
    requires QueryAccepted(q, isIso)
    ensures r.total == |matching| && 1 <= r.limit <= 100 && r.page >= 1
    ensures |r.data| <= r.limit
    ensures r.data == PageOf(matching, r.page, r.limit)
    ensures r.page == PageNumber(q, isIso) && r.limit == PageSize(q, isIso)
    ensures r.pages == PageCount(|matching|, r.limit)
  {
    var page := PageNumber(q, isIso);
    var limit := PageSize(q, isIso);
    ListAnswer(PageOf(matching, page, limit), page, limit, |matching|, PageCount(|matching|, limit))
  }

  /**
   * The pages an answer announces, fetched with the same page size, list
   * every matching order exactly once and in order; a page number beyond
   * them answers an empty page. A query without page or limit gives the
   * first 50 matching orders.
   */
  lemma ListOrdersCoverAll<T>(matching: seq<T>, q: Query, isIso: string -> bool)
    requires QueryAccepted(q, isIso)
    ensures var r := ListOrders(matching, q, isIso);
      && FirstPages(matching, r.limit, r.pages) == matching
      && (r.page > r.pages ==> r.data == [])
    ensures q.page.None? && q.limit.None? ==>
      ListOrders(matching, q, isIso).data == matching[..Min(DefaultLimit, |matching|)]
  {
    var r := ListOrders(matching, q, isIso);
    PagesCoverAll(matching, r.limit, r.page);
    if q.page.None? && q.limit.None? {
      FirstPagesPrefix(matching, DefaultLimit, 1);
      assert FirstPages(matching, DefaultLimit, 1) == FirstPages(matching, DefaultLimit, 0) + PageOf(matching, 1, DefaultLimit);
    }
  }

  /** The store filter: a key only for a given, non-empty parameter. */
  datatype Filter = Filter(status: Option<string>, deliveryDate: Option<string>)

  function BuildFilter(q: Query): (f: Filter)
    ensures f.status.Some? <==> q.status.Some? && q.status.value != ""
    ensures f.deliveryDate.Some? <==> q.date.Some? && q.date.value != ""
    ensures f.status.Some? ==> f.status == q.status
    ensures f.deliveryDate.Some? ==> f.deliveryDate == q.date
  {
    var f := Filter(None, None);
    var f := if q.status.Some? && q.status.value != "" then f.(status := q.status) else f;
    if q.date.Some? && q.date.value != "" then f.(deliveryDate := q.date) else f
  }

  predicate Matches(f: Filter, o: StoredOrder)
  {
    (f.status.Some? ==> o.status == f.status.value) && (f.deliveryDate.Some? ==> o.deliveryDate == f.deliveryDate.value)
  }

  /**
   * On an accepted query (the date recogniser refusing the empty text), the
   * filter selects exactly the orders with the given status and the given
   * delivery date: the truthiness test drops no given parameter.
   */
  lemma FilterSelectsQuery(q: Query, isIso: string -> bool, o: StoredOrder)
    requires QueryAccepted(q, isIso) && !isIso("")
    ensures Matches(BuildFilter(q), o) <==>
      (q.status.Some? ==> o.status == q.status.value) && (q.date.Some? ==> o.deliveryDate == q.date.value)
  {
  }
}
