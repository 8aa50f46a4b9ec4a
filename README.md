# Bakery orders: a verified model of the order logic

This project models the order logic of a small bakery-order tool in Dafny. The
tool has three parts:

- **Browser variant** (`script.js`). It keeps the order list in the browser and
  syncs it with a remote file. Modelled: saving a form as a new `pendiente`
  order, deleting by id, editing, the four-state status button
  (pendiente → en_proceso → completado → cancelado → pendiente), and the
  reconciliation of the local list with the remote snapshot. Reconciliation
  either replaces the list wholesale or merges per id: last writer wins on
  `updatedAt`, and local-only orders older than five minutes are dropped.
- **Server-backed front-end** (`public/script.js`). Modelled: `cleanOrderData`,
  the five-state status successor table, the client-side `validateOrder`, the
  list filter and the delivery-time sort that puts unparseable dates last, and
  the `OrderManager` state (`orders`, `editingOrderId`) with the requests its
  buttons send.
- **Server** (`routes/orders.js`, `models/Order.js`). Modelled: the
  express-validator rules of the order routes, the 400 gate, filter
  construction and pagination arithmetic of `GET /`, and the mongoose schema.
  The schema covers trimming, defaults, the `YYYY-MM-DD` / `HH:MM` validators,
  length bounds and the status enum. Also modelled: the `deliveryDateTime`
  virtual, the date normalisation and time order of `getByDeliveryDate`, and
  the per-status grouping of `getStats`.

The modules follow the program's structure:

| module | file | models |
|---|---|---|
| `Common` | common.dfy | Options and results, `Array.prototype.filter`, a sort by a total preorder, counting |
| `Text` | text.dfy | `String.prototype.trim`, `split`/`join` on one character, lexicographic order, integer texts |
| `Formats` | formats.dfy | The date and time regular expressions, and how the route's and the schema's time checks relate |
| `OrderForm` | order_form.dfy | `getFormData` and the required-field checks, which both front-ends share |
| `LocalOrders`, `SyncMerge`, `LocalStore` | local_orders.dfy, sync_merge.dfy, local_store.dfy | The browser variant; its `OrderManager` is a class over a `seq<Order>` |
| `OrderSchema`, `OrderRoutes` | order_schema.dfy, order_routes.dfy | The server |
| `ApiClient` | api_client.dfy | The server-backed front-end; its `OrderManager` is the class `OrderBoard` |

Each loop in the source is a Dafny method proved equal to a specification
function: `getFormData`'s `forEach`, and the two `forEach` passes of the merge
over a JavaScript `Map`. A `Map` is modelled as its keys in insertion order
plus a `map` of entries. The properties are proved as lemmas about those
functions.

The request validator and the schema disagree on delivery times. The route
accepts a one-digit hour such as `9:30`, which the schema's `HH:MM` validator
then refuses when the order is saved. The schema accepts `99:99`, which the
route refuses. `Formats.RouteTimeVersusClockFormat` states the exact relation.
`OrderRoutes.OneDigitHourFailsToSave` shows the consequence: a POST body the
route accepts with a four-character time always ends in a failed save.

The two also measure text length differently. The route's length rule counts
characters, but not the variation selectors U+FE0E and U+FE0F
(`Text.ValidatorLength`). The schema's `maxlength` counts UTF-16 code units, so
a character above U+FFFF counts twice (`Text.Utf16Length`). The two agree on
text without either kind of character (`Text.NarrowLengths`). A name of 51
emoji passes the route and then fails at save (`OrderRoutes.WideNameFailsToSave`).
For a body the route accepts whose date has the form `YYYY-MM-DD` and whose
time has five characters, `OrderRoutes.RouteAcceptedSaves` states exactly when
it is saved: when its texts are within the schema's UTF-16 bounds.

Dates differ too. The route checks only that the date is ISO 8601
(routes/orders.js:37), which also admits forms such as `2030-06` or
`2030-01-01T10:00`. The schema wants exactly `YYYY-MM-DD` (models/Order.js:33-43).
A body whose date the route admits in another form therefore passes the route
and fails at save (`OrderRoutes.OtherIsoDateFailsToSave`). Which texts are
ISO 8601 is the parameter `isIso`, so the model shows this for any reading of
ISO 8601 that admits such a date, not for validator.js's own pattern.

## Model

| member | source | states |
|---|---|---|
| Common.Keep | public/script.js:471-478 | The filtered list holds exactly the elements that pass the predicate, each as often as in the input, and is no longer than the input |
| Common.KeepAppend | script.js:496 | Filtering distributes over concatenation, so the elements kept keep their relative order |
| Common.SortBy | public/script.js:481-496 | The sorted list is ordered by the comparator and is a permutation of the input |
| Text.Trim | public/script.js:270-286 | The result is the input with its leading and trailing white space cut off: no white space at either end, only white space removed, and empty exactly when the input is all white space |
| Text.TrimIdempotent | models/Order.js:22-27 | Trimming a value the route already trimmed changes nothing |
| Text.Utf16Length | models/Order.js:26-31 | A string is at least as long in UTF-16 code units as in characters and at most twice as long; each character above U+FFFF counts two |
| Text.ValidatorLength | routes/orders.js:27-33 | The length the route's length rule measures is at most the number of characters: each character counts one, except U+FE0E and U+FE0F, which count none |
| Text.NarrowLengths | routes/orders.js:27-33 | For text without characters above U+FFFF or variation selectors, the route's length, the number of characters and the UTF-16 length are the same |
| Text.RepeatLengths | models/Order.js:26 | A character repeated n times has route length n and UTF-16 length n times the character's code units |
| Text.Split | public/script.js:116-117 | The number of pieces is one more than the number of separators; no piece holds the separator; the first piece is the prefix before the first separator |
| Text.JoinSplit | public/script.js:116-118 | Joining the pieces of a split with the same separator gives the original string back |
| Text.SplitFirstTwo | public/script.js:117-118 | With two or more separators, the first two pieces joined again are a proper prefix of the input, followed by a separator, holding exactly one separator |
| Text.LexLeTotal | models/Order.js:106 | Any two delivery times are comparable in string order |
| Text.LexLeTransitive | models/Order.js:106 | String order is transitive |
| Text.DecimalTextRoundTrip | routes/orders.js:87-88 | An integer text read by the `isInt` check denotes the number whose decimal rendering it is |
| Formats.RouteTimeMatchesPattern | routes/orders.js:49-51 | The positional time check accepts exactly the strings the route's hour-and-minute pattern matches |
| Formats.RouteTimeVersusClockFormat | models/Order.js:44-54 | The route accepts a time iff, after padding a one-digit hour with '0', it is a valid `HH:MM` clock time; `9:30` passes the route but not the schema, and `99:99` passes the schema but not the route |
| OrderForm.FormItems | public/script.js:262-277 | Every collected item has a non-empty trimmed product and quantity and a trimmed price, and there are at most as many items as rows |
| OrderForm.FormItemsStep | public/script.js:265-276 | Each row adds its trimmed item exactly when its product and quantity are not blank |
| OrderForm.GetFormData | public/script.js:261-288 | The row loop computes the form data; the name, notes and total are trimmed and every item has a product and a quantity |
| OrderForm.RequiredFieldsError | script.js:202-224 | The checks run in order (name, date, time, items); the first missing one is reported, and none exactly when all four are present |
| LocalOrders.IndexOf | script.js:475 | `indexOf` gives the first position of the value, or -1 exactly when it is absent |
| LocalOrders.NextStatus | script.js:473-476 | The button always produces a workflow status, and an unknown status (index -1) becomes `pendiente` |
| LocalOrders.NextStatusFollows | script.js:473-478 | Each workflow status moves to the next one in the list, and the last back to the first |
| LocalOrders.NextStatusCycle | script.js:473-478 | Four presses bring a workflow status back to itself |
| LocalOrders.FindById | script.js:471-472 | `find` gives the first order with the id, or nothing exactly when no order has it |
| LocalOrders.WithoutIdRemovesExactly | script.js:496 | Deleting removes every order with the id, keeps every other order as often as it occurred, and shortens the list by the number of matches |
| LocalOrders.WithoutIdKeepsOrder | script.js:496 | Deleting keeps the remaining orders in their original relative order |
| SyncMerge.Put | script.js:777 | `map.set` keeps the map well formed and maps the id to the order; a new id is appended to the keys, and an existing id keeps its place |
| SyncMerge.PutAll | script.js:776-778 | After the remote pass the map holds exactly the remote ids, each mapped to a remote order |
| SyncMerge.Overlay | script.js:781-786 | After the local pass the map holds the earlier ids plus the local ids, each mapped to a local order or to its earlier entry |
| SyncMerge.Values | script.js:789 | `Array.from(map.values())` lists exactly the map's entries, one per key in insertion order, with distinct ids |
| SyncMerge.Merge | script.js:773-793 | The merged list holds each id at most once, and every order in it is known remotely or was updated in the last five minutes |
| SyncMerge.RemotePass | script.js:776-778 | The remote `forEach` loop computes `PutAll` of the remote list |
| SyncMerge.LocalPass | script.js:781-786 | The local `forEach` loop computes `Overlay` of the local list |
| SyncMerge.MergeOrders | script.js:773-793 | The merge computes the two passes and the retention filter; its result has distinct ids and holds every remote id |
| SyncMerge.PutAllEntry | script.js:776-778 | With distinct remote ids, each remote order is the map's entry for its id |
| SyncMerge.PutAllLastWins | script.js:776-778 | Whatever the ids, the remote pass keeps under an id the last remote order carrying it |
| SyncMerge.PutAllKeys | script.js:776-778 | With distinct remote ids, the map's keys are the remote ids in snapshot order |
| SyncMerge.PutAllValues | script.js:776-789 | With distinct remote ids, the remote pass lists the snapshot's orders in snapshot order |
| SyncMerge.OverlayUntouched | script.js:781-786 | The local pass leaves alone the entry of an id no local order carries |
| SyncMerge.OverlayEntry | script.js:781-786 | With distinct local ids, a local order's id ends mapped to that order when it replaces (new id or strictly later `updatedAt`), else to the earlier entry |
| SyncMerge.OverlayNoReplace | script.js:781-786 | A local pass in which every order is already the map's entry changes nothing |
| SyncMerge.KeepUniqueIds | script.js:789-793 | Filtering keeps ids distinct |
| SyncMerge.MergedIsEntry | script.js:789-793 | Every merged order is the map's entry for its id |
| SyncMerge.EntryIsMerged | script.js:789-793 | An entry the retention filter keeps is in the merged list |
| SyncMerge.MergeFromInputs | script.js:789-793 | Every merged order comes from one of the two lists, and is either known remotely or updated in the last five minutes |
| SyncMerge.MergeKeepsRemoteIds | script.js:789-793 | Every id of the snapshot is in the merged list |
| SyncMerge.MergeLastWriterWins | script.js:781-786 | With distinct ids on each side: for an id on both sides, the merged list holds the local order when its `updatedAt` is strictly later, and the remote order otherwise (ties and missing timestamps included), and no other order with that id |
| SyncMerge.MergeLocalOnly | script.js:789-793 | A local order whose id the snapshot lacks survives exactly when it was updated within the last five minutes |
| SyncMerge.MergeWithSelf | script.js:773-793 | Merging a list with distinct ids with itself gives the list back |
| SyncMerge.Reconcile | script.js:755-797 | The list is replaced by the snapshot's orders, with its sync time text or else the current time, when no local sync time is stored or the snapshot's time reads as strictly later; otherwise the lists are merged and the current time recorded. Distinct snapshot ids leave distinct ids either way |
| SyncMerge.ReconcileKeepsRemoteIds | script.js:763-795 | Whichever branch the load takes, every snapshot id is in the resulting list |
| SyncMerge.ReconcileTwice | script.js:763-796 | For a snapshot with distinct ids: after a wholesale replace by it with a sync time, loading the same snapshot again leaves the list unchanged |
| SyncMerge.UnreadableSyncTimeMerges | script.js:760-765 | A stored local sync time that does not read as a date makes every load merge, whatever the snapshot's time, while a missing one makes it take the snapshot wholesale |
| LocalStore.AfterSave | script.js:147-161 | A refused form leaves the list alone; an accepted one keeps every order and appends exactly one, holding the form's trimmed name, phone, notes and total, its date and time as typed and its complete item lines, with the new id, status `pendiente` and both timestamps now |
| LocalStore.AfterStatusChange | script.js:470-479 | Only the first order with the id changes, and only its status (to the next one) and `updatedAt`; an unknown id changes nothing |
| LocalStore.StatusChangeKeepsIds | script.js:470-479 | A status change keeps every id in place and keeps workflow statuses in the workflow |
| LocalStore.EditThenSave | script.js:411-460 | Editing removes every order with the old id and keeps the others in place; saving the form then appends the form's order under the new id, so no order keeps the old id |
| LocalStore.OperationsKeepUniqueIds | script.js:147-161 | Saving under an id no order has keeps the ids of the list distinct, and so do changing a status (script.js:470-479) and deleting by id (script.js:491-496) |
| LocalStore.OrderManager.constructor | script.js:818-824 | The list starts as the saved list, or empty when nothing was saved; the sync time is the stored text, if any |
| LocalStore.OrderManager.SaveOrder | script.js:147-161 | Reads and checks the form, reports the first missing field, and leaves the list as `AfterSave` says |
| LocalStore.OrderManager.ChangeOrderStatus | script.js:470-479 | The list becomes `AfterStatusChange` of the old list |
| LocalStore.OrderManager.DeleteOrder | script.js:491-497 | A declined confirmation changes nothing; otherwise every order with the id is removed |
| LocalStore.OrderManager.EditOrder | script.js:411-460 | Returns the first order with the id and removes the id from the list, or changes nothing when no order has it |
| LocalStore.OrderManager.MarkSynced | script.js:603-621 | An upload records the time text it uploaded as the local sync time and leaves the list alone |
| LocalStore.OrderManager.LoadFromGist | script.js:755-797 | The list and the stored sync time become those `Reconcile` gives for the old list and the old stored text |
| OrderSchema.TrimOpt | models/Order.js:28-32 | An optional string stays present or absent, and a present one becomes the slice of it left after cutting white space from both ends |
| OrderSchema.Cast | models/Order.js:21-70 | Casting trims name, phone, notes, total, and each item's product, quantity and price; keeps date and time as given and the number of items; and fills in the defaults: status `pendiente`, empty total and prices |
| OrderSchema.Errors | models/Order.js:21-70 | The error map is empty exactly when no path breaks a rule; it reports every broken path, each with the rule it breaks, and nothing else |
| OrderSchema.FaultFreeIffNoFault | models/Order.js:21-70 | A document is fault-free exactly when no path of it breaks a rule |
| OrderSchema.CastItemsPresent | models/Order.js:4-13 | An item passes exactly when its product and quantity are present and non-empty after trimming |
| OrderSchema.CastFaultFreeIffAcceptable | models/Order.js:21-70 | A cast document breaks no rule exactly when the input is acceptable: name required and at most 100 UTF-16 code units after trimming, phone at most 20, notes at most 500, date `YYYY-MM-DD`, time `HH:MM`, status in the enum, every item complete |
| OrderSchema.Store | models/Order.js:21-75 | A fault-free document becomes a well-formed stored order holding the document's name, phone, notes, date, time, status, total and each item's product, quantity and price |
| OrderSchema.StoreOfCast | models/Order.js:21-70 | The order saved from an input holds the input's name, phone, notes, total and item texts trimmed, its date and time, its status or `pendiente`, and one item per input item |
| OrderSchema.Validate | models/Order.js:21-70 | Saving succeeds exactly for acceptable input (lengths in UTF-16 code units), with a well-formed order holding the input's trimmed values and the defaults; a failure reports exactly the broken paths, each with its rule |
| OrderSchema.StoredItemsRoundTrip | models/Order.js:3-19 | Stored items cast back to complete items and store to themselves |
| OrderSchema.ResaveIsIdentity | models/Order.js:21-70 | Saving a stored order again gives back the same order |
| OrderSchema.DeliveryDateTime | models/Order.js:84-97 | The virtual is null exactly when the date or the time is missing or empty, and otherwise the parse of date 'T' time |
| OrderSchema.StoredHasDateTime | models/Order.js:84-92 | Every stored order has a delivery date-time |
| OrderSchema.TargetDate | models/Order.js:102 | A string argument is used as it is; a date object gives the prefix of its ISO text before the first 'T' |
| OrderSchema.TargetDateOfIso | models/Order.js:102 | The date part of an ISO text is recovered exactly |
| OrderSchema.ByTimeIsTotalPreorder | models/Order.js:106 | Ascending delivery time is a total preorder |
| OrderSchema.ByDeliveryDate | models/Order.js:100-107 | The answer holds exactly the orders of the target date, each as often as stored, in ascending delivery time |
| OrderSchema.GroupIndex | models/Order.js:113-116 | Finds the group of a status, or nothing exactly when there is none |
| OrderSchema.Tally | models/Order.js:113-116 | Counting one order bumps its status's group or opens a new one; the total grows by one and statuses stay distinct |
| OrderSchema.Stats | models/Order.js:110-119 | One group per status present, statuses distinct, each counting the orders with that status |
| OrderSchema.StatsTotal | models/Order.js:110-119 | The counts add up to the number of orders |
| OrderRoutes.FlaggedErrors | routes/orders.js:57-65 | Reports one error for every marked position and for no other, in increasing order of position |
| OrderRoutes.BlankItemErrors | routes/orders.js:57-65 | Reports an error for every item with a blank product (or quantity) and for no other, naming each one's index, in increasing order of index |
| OrderRoutes.BodyErrors | routes/orders.js:22-81 | The rules report no error exactly when the body is acceptable to the route, with the length bounds in the route's own count |
| OrderRoutes.HandleValidationErrors | routes/orders.js:9-19 | The gate answers 400 with the full error list whenever any rule failed, and passes on otherwise |
| OrderRoutes.ToInput | routes/orders.js:193-195 | The document holds the body's name trimmed (empty when absent), phone, notes and total trimmed when given, date, time and status as given, and items exactly when the body has a list, each with its product and quantity trimmed and its price as given |
| OrderRoutes.CreateOrder | routes/orders.js:193-210 | POST is rejected with the rule errors exactly when the route refuses the body; otherwise it creates the order the schema saves for the body's document exactly when the schema accepts it, and answers the schema's errors when it does not |
| OrderRoutes.SavedHoldsBody | routes/orders.js:193-210 | A created order holds the body's values trimmed once, its date and time as sent, and one item per body item with its product, quantity and price |
| OrderRoutes.ItemInputOfBodyAcceptable | routes/orders.js:57-65 | An item with non-blank product and quantity passes the schema |
| OrderRoutes.AcceptedScalars | routes/orders.js:22-81 | A body the route accepts, whose trimmed texts are within the schema's UTF-16 bounds, meets the schema's name, phone, notes and status rules |
| OrderRoutes.RouteAcceptedIsAcceptable | routes/orders.js:193-196 | A body the route accepts, within the schema's UTF-16 bounds, with a `YYYY-MM-DD` date and a five-character time, is acceptable to the schema |
| OrderRoutes.RouteAcceptedSaves | routes/orders.js:193-208 | A body the route accepts, with a `YYYY-MM-DD` date and a five-character time, is created exactly when its trimmed texts are within the schema's UTF-16 bounds; otherwise the save fails |
| OrderRoutes.NarrowWithinSchemaLengths | routes/orders.js:27-70 | For text without characters above U+FFFF or variation selectors, the route's length bounds imply the schema's |
| OrderRoutes.NarrowRouteAcceptedSaves | routes/orders.js:193-202 | A body the route accepts, with such text, a `YYYY-MM-DD` date and a five-character time, is created |
| OrderRoutes.WideNameLengths | routes/orders.js:27 | A name of 51 emoji is its own trim, has route length 51 and UTF-16 length 102 |
| OrderRoutes.WideNameFailsToSave | routes/orders.js:193-208 | A body the route accepts with a name of 51 emoji always fails at save, since the schema counts 102 code units |
| OrderRoutes.OneDigitHourFailsToSave | routes/orders.js:49-51 | A body the route accepts with a one-digit hour always fails at save |
| OrderRoutes.OtherIsoDateFailsToSave | routes/orders.js:36-38 | A body the route accepts whose date is not in the schema's `YYYY-MM-DD` form always fails at save; `2030-06` and `2030-01-01T10:00` are two such dates |
| OrderRoutes.IdErrors | routes/orders.js:165-167 | The id rule fails exactly for strings that are not 24 characters of hexadecimal text, where the text may start with `0x` or `0h` in either case |
| OrderRoutes.PrefixedIdPasses | routes/orders.js:167 | A 24-character id starting with `0x` passes the id rule, though it is not 24 hexadecimal digits |
| OrderRoutes.UpdateErrors | routes/orders.js:213-216 | PUT passes exactly when the id is valid and the body is acceptable |
| OrderRoutes.StatusPatchErrors | routes/orders.js:246-249 | PATCH passes exactly when the id is valid and the status is one of the five |
| OrderRoutes.QueryErrors | routes/orders.js:84-89 | The query passes exactly when status is in the enum, the date is ISO 8601, page is an integer of at least 1 and limit an integer from 1 to 100, each when given |
| OrderRoutes.PageNumber | routes/orders.js:87-91 | The page is the number the query gives, at least 1, and 1 when absent |
| OrderRoutes.PageSize | routes/orders.js:88-91 | The page size is the number the query gives, from 1 to 100, and 50 when absent |
| OrderRoutes.Skip | routes/orders.js:102 | The number of skipped orders is never negative |
| OrderRoutes.PageCount | routes/orders.js:119 | The page count is the least n with n pages covering the total |
| OrderRoutes.PageOf | routes/orders.js:102-108 | A page holds at most `limit` orders |
| OrderRoutes.FirstPagesPrefix | routes/orders.js:102-108 | The first n pages together are the first n·limit orders |
| OrderRoutes.PagesCoverAll | routes/orders.js:102-119 | The announced pages together list every matching order, and every page after them is empty |
| OrderRoutes.ListOrders | routes/orders.js:91-119 | The answer to an accepted list query is the requested page of the matching orders, at most the page size long, with the requested page and size, the total and the page count |
| OrderRoutes.ListOrdersCoverAll | routes/orders.js:91-119 | The pages an answer announces list every matching order; a later page is empty; without page and limit the answer is the first 50 matching orders |
| OrderRoutes.BuildFilter | routes/orders.js:94-99 | The filter has a status key exactly when a non-empty status was given, and a date key, equal to the query date, exactly when a non-empty date was given |
| OrderRoutes.FilterSelectsQuery | routes/orders.js:85-99 | For an accepted query, an order matches the filter exactly when it has the given status and date |
| ApiClient.CleanDateText | public/script.js:106-111 | A date containing 'T' is cut to its prefix before the first 'T'; one without 'T' is unchanged |
| ApiClient.CleanTimeText | public/script.js:113-120 | A time with more than two ':'-separated parts is cut to its first two parts joined by ':'; any other time is unchanged |
| ApiClient.CleanOrderData | public/script.js:101-128 | Non-empty string dates and times are cleaned, a non-array `items` becomes empty, and every other field is copied |
| ApiClient.CleanOrderDataIdempotent | public/script.js:101-128 | Cleaning gives a clean order, leaves a clean order unchanged, and cleaning twice is cleaning once |
| ApiClient.CleanAll | public/script.js:89 | Loading cleans every order: the order at each position is the cleaned order at that position, every result is clean, and a list of clean orders is left as it is |
| ApiClient.StatusMapLookup | public/script.js:369-377 | Looking a status up in the successor table finds a string exactly for the five statuses, and nothing exactly for names the object does not inherit |
| ApiClient.NextStatusAsWritten | public/script.js:377 | Away from inherited property names the successor is a status of the enum; an inherited method name yields a function |
| ApiClient.PatchStatusOf | public/script.js:385 | Serialising the PATCH body keeps a string status and drops a function or undefined one |
| ApiClient.NextStatusAsWrittenRejected | public/script.js:365-386 | For an inherited property name, the PATCH the button sends is refused by the status route |
| ApiClient.NextServerStatus | public/script.js:369-377 | The intended successor is always in the enum, and an unknown status becomes `pendiente` |
| ApiClient.NextStatusAsWrittenAgrees | public/script.js:369-377 | Away from inherited property names, the button computes exactly the intended successor |
| ApiClient.NextServerStatusAccepted | routes/orders.js:246-249 | Every intended successor passes the status route |
| ApiClient.NextServerStatusFollowsEnum | public/script.js:369-375 | Each status moves to the next one of the enum, and the last back to the first |
| ApiClient.NextServerStatusCycle | public/script.js:369-375 | Five presses bring a status back to itself |
| ApiClient.ValidateOrder | public/script.js:290-338 | The form passes exactly when the required fields are there, the date is `YYYY-MM-DD`, the time is `HH:MM`, and the delivery instant is not before now; the first failing check is reported, and a past instant is reported as such exactly when every earlier check passes |
| ApiClient.FormItemsNotBlank | public/script.js:270-276 | No item sent from the form has a blank product or quantity |
| ApiClient.FormScalarsPass | public/script.js:279-287 | A form whose trimmed texts are within the UTF-16 bounds meets the route's name, phone and notes rules and the schema's length bounds |
| ApiClient.ClockTimeIsRouteTime | public/script.js:319-323 | A valid `HH:MM` clock time passes the route's time check |
| ApiClient.SubmittedFormPassesRoute | public/script.js:225-241 | A form the client accepts, within the UTF-16 bounds, with a valid clock time and a date the server reads as ISO 8601 and not before today, passes the route |
| ApiClient.SubmittedFormIsCreated | public/script.js:225-241 | Such a form is created by the server; the client checks no length, so the bounds are a hypothesis |
| ApiClient.FilterOrders | public/script.js:468-478 | Keeps exactly the orders with the filtered status (all when the filter is "all") and the filtered date (all when empty); with no filter it is the list itself |
| ApiClient.FilterOrdersCounts | public/script.js:468-478 | Each kept order occurs as often as in the list |
| ApiClient.SortText | public/script.js:483-484 | The sort key is the date, 'T' and the time; a missing or empty time sorts as `00:00` |
| ApiClient.Compare | public/script.js:486-491 | Two unparseable dates are equal, an unparseable date comes after a valid one, and two valid ones compare by instant |
| ApiClient.ByDeliveryIsTotalPreorder | public/script.js:481-496 | The comparator is a total preorder |
| ApiClient.Shown | public/script.js:468-496 | The shown list is ordered by delivery instant and is a permutation of the filtered list |
| ApiClient.ShownInvalidLast | public/script.js:486-489 | In the shown list, orders with unparseable dates come after all valid ones, and valid ones ascend |
| ApiClient.Rendered | public/script.js:463-496 | Rendering keeps the same orders; with no filter active the list is sorted by delivery instant, and with a filter it is left alone |
| ApiClient.FindOrder | public/script.js:366 | `find` gives the first order with the id, or nothing exactly when no order has it |
| ApiClient.OrderBoard.constructor | public/script.js:1-8 | Starts with no orders and no order being edited |
| ApiClient.OrderBoard.LoadOrders | public/script.js:75-99 | A successful answer replaces the list by its cleaned data (empty when missing), which the render then sorts when no filter is active; any other answer changes nothing |
| ApiClient.OrderBoard.LoadOfflineOrders | public/script.js:56-73 | The list becomes the saved list, or empty when nothing was saved or it did not parse, and the render then sorts it when no filter is active |
| ApiClient.OrderBoard.RenderOrders | public/script.js:463-496 | Returns the filtered, sorted list; the order list becomes `Rendered` of the old one, sorted in place exactly when no filter is active |
| ApiClient.OrderBoard.EditOrder | public/script.js:402-437 | Marks the order as being edited and returns it, or changes nothing when no order has the id |
| ApiClient.OrderBoard.ClearForm | public/script.js:439-461 | Nothing is being edited afterwards |
| ApiClient.OrderBoard.SaveOrder | public/script.js:225-259 | Sends nothing when the client refuses the form; otherwise sends a PUT for the order being edited, or a POST |
| ApiClient.OrderBoard.ChangeOrderStatus | public/script.js:365-386 | Sends a PATCH with the successor the lookup table gives, as the body carries it, or nothing when no order has the id; away from inherited property names that is the intended successor, a status of the enum |
| ApiClient.OrderBoard.DeleteOrder | public/script.js:341-350 | Sends a DELETE for the id exactly when the user confirms |

## Left out

- Rendering and everything else in the DOM is not modelled: order cards, toasts and notifications, item rows, scrolling, and the form reset in `clearForm`. `ClearForm` models only the `editingOrderId` reset.
- Network calls are not performed. The server-backed client's answers are method inputs (`LoadAnswer`), and its requests are returned values (`Request`). The remote-file (Gist) calls, the token probe and the HTTP error recovery of `syncData` (script.js:625-660) are not modelled. The snapshot the browser variant loads is an input.
- Persistence in `localStorage` is not modelled. Saved lists and sync times are constructor or method parameters.
- Concurrency is not modelled: the order in which asynchronous calls finish, and the unguarded read-modify-write of the remote snapshot.
- Which dates pass the route's ISO 8601 check is left to the `isIso` parameter, so validator.js's `isISO8601` pattern is not modelled. The dates it admits in other forms than `YYYY-MM-DD` pass the route and fail at save; `OtherIsoDateFailsToSave` states that consequence for whatever `isIso` admits.
- Date parsing, the clock, time zones and ISO 8601 recognition are parameters: `instant`, `parse`, `isIso`, `beforeToday`, `now` and `nowText`. Order timestamps are integers, and a missing or unparseable one is `None`, which compares as `false` like an invalid `Date`. Sync times are kept as the text stored, and read through `parse`.
- Strings are sequences of Unicode scalar values, so a lone surrogate, which a JavaScript string may hold, cannot be represented.
- Id generation (`generateId`, script.js:810-812) is random and clock-based. Ids are parameters. That a new id differs from every id in the list is a hypothesis of `OperationsKeepUniqueIds`, not a fact the model proves; the merge lemmas that assume distinct local ids (`MergeLastWriterWins`, `MergeLocalOnly`) rest on it. Distinct ids in a snapshot rest on the same hypothesis, since a snapshot is a list some client uploaded: `MergeLastWriterWins`, `ReconcileTwice` and the `PutAll` lemmas assume them. With a repeated id in the snapshot, `Map.set` keeps the last remote order under it (script.js:776-779), the local order is compared with that one, and a second load's self-merge collapses the repeats, so neither lemma's conclusion holds as stated. `PutAllLastWins` states which remote order the pass keeps in that case.
- server.js and middleware/index.js are not part of this model (framework setup, rate limits, logging, the error-to-status mapping).
- The database is not modelled. The model covers the filter, validation and pagination rules, not query execution: `find`, `sort`, `skip`, `limit`, `countDocuments`, `findById`, `findByIdAndUpdate` and `findByIdAndDelete`. The read-side routes `GET /:id` and `GET /stats` are covered only through their id rule and the `getStats` grouping. The `todayOrders` count is not modelled.
- OrderRoutes.UpdateErrors: only the route's rules are modelled for PUT. The update validators the store runs afterwards are not.
- `renderOrders` and `getStatusText` of script.js are display code, and are not modelled. When neither filter is set, that `renderOrders` sorts the order list itself in place (script.js:267-283), with a comparator that subtracts dates that may be invalid, which leaves the order of `Array.prototype.sort` implementation-defined. The methods below end with that render, so their contracts give the list in the order the operation leaves it, not the order after the sort:
- LocalStore.OrderManager.constructor: the render at start-up (script.js:15) is not modelled.
- LocalStore.OrderManager.SaveOrder: the render after the save (script.js:163) is not modelled.
- LocalStore.OrderManager.ChangeOrderStatus: the render after the change (script.js:482) is not modelled.
- LocalStore.OrderManager.DeleteOrder: the render after the removal (script.js:498) is not modelled, nor is it for EditOrder, which removes through it.
- LocalStore.OrderManager.LoadFromGist: the render after either branch (script.js:767, 798) is not modelled.
- Numbers are exact. JavaScript's floating-point precision for very large `page` and `limit` values, and for timestamps, is not modelled.
- Request-body fields are strings or absent, and `items` is a list, absent or not a list. Numbers or objects in string fields are not modelled.
- In the server-backed client, order fields are strings or "not a string". Of the non-string values, only their effect on `cleanOrderData` is modelled.
- In the server-backed client, orders are found by their database id (`_id`). The model names that field `id`.
- Sort stability is not modelled. `Shown` and `ByDeliveryDate` promise order and permutation, not the relative order of equal elements.

## Findings

| source | as written | input that shows it | evidently intended | confidence | as-written member | corrected member |
|---|---|---|---|---|---|---|
| public/script.js:369-377 | The status successor is looked up in a plain object literal, so names inherited from `Object.prototype` are found too. An inherited method is a function, which is truthy. Serialising the PATCH body then drops it, and the status route answers 400. | An order whose status is `toString` (or `constructor`, `__proto__`, ...) | Every status outside the five becomes `pendiente` | low: needs a status outside the enum, for example from the offline list; not executed | ApiClient.NextStatusAsWrittenRejected | ApiClient.NextServerStatus |
