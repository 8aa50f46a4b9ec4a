/**
 * The browser variant's order manager: the order list it keeps in local
 * storage and the local sync time, and the operations that change them.
 * Ids, the clock and the user's answer to the delete confirmation are inputs.
 */
module LocalStore {
  import opened Common
  import opened Text
  import opened OrderForm
  import opened LocalOrders
  import opened SyncMerge

  /** A saved order: the form data under a fresh id, pending, created and updated now. */
  function NewOrder(d: FormData, id: string, now: int): Order
  {
    Order(id, d.customerName, d.customerPhone, d.deliveryDate, d.deliveryTime, d.items,
          d.notes, d.totalAmount, "pendiente", Some(now), Some(now))
  }

  /** The list after saving the form: one new pending order at the end when the checks pass, else the same list. */
  function AfterSave(orders: seq<Order>, f: FormFields, id: string, now: int): (r: seq<Order>)
    ensures RequiredFieldsError(FormDataOf(f)).Some? ==> r == orders
    ensures RequiredFieldsError(FormDataOf(f)).None? ==>
      && |r| == |orders| + 1 && r[..|orders|] == orders
      && r[|orders|].id == id && r[|orders|].status == "pendiente"
      && r[|orders|].createdAt == Some(now) && r[|orders|].updatedAt == Some(now)
      && r[|orders|].items != []
    ensures RequiredFieldsError(FormDataOf(f)).None? ==>
      && r[|orders|].customerName == Trim(f.customerName) && r[|orders|].customerPhone == Trim(f.customerPhone)
      && r[|orders|].deliveryDate == f.deliveryDate && r[|orders|].deliveryTime == f.deliveryTime
      && r[|orders|].items == FormItems(f.rows)
      && r[|orders|].notes == Trim(f.notes) && r[|orders|].totalAmount == Trim(f.totalAmount)
  {
    var d := FormDataOf(f);
    if RequiredFieldsError(d).None? then
      var r := orders + [NewOrder(d, id, now)];
      assert r[..|orders|] == orders;
      r
    else orders
  }

  /**
   * The list after the status button of order `id`: the first order with that
   * id gets the next status and is stamped now; every other order, and the
   * whole list when no order has the id, stays as it was.
   */
  function AfterStatusChange(orders: seq<Order>, id: string, now: int): (r: seq<Order>)
    ensures |r| == |orders|
    ensures FindById(orders, id).None? ==> r == orders
    ensures forall j :: 0 <= j < |orders| && FindById(orders, id) != Some(j) ==> r[j] == orders[j]
    ensures FindById(orders, id).Some? ==>
      var k := FindById(orders, id).value;
      r[k] == orders[k].(status := NextStatus(orders[k].status), updatedAt := Some(now))
  {
    match FindById(orders, id)
    case None => orders
    case Some(k) => orders[k := orders[k].(status := NextStatus(orders[k].status), updatedAt := Some(now))]
  }

  /** A status change keeps every id where it was and leaves every status in the workflow if it was there. */
  lemma StatusChangeKeepsIds(orders: seq<Order>, id: string, now: int)
    ensures var r := AfterStatusChange(orders, id, now);
      && (forall j :: 0 <= j < |orders| ==> r[j].id == orders[j].id)
      && (forall j :: 0 <= j < |orders| && orders[j].status in Statuses ==> r[j].status in Statuses)
  {
  }

  /**
   * Editing hands the order back to the form and removes it, so saving the
   * form re-creates it under a new id: every order with the old id is gone,
   * every other order stays in place, and the last order is the form's.
   */
  lemma EditThenSave(orders: seq<Order>, id: string, f: FormFields, newId: string, now: int)
    requires FindById(orders, id).Some?
    requires RequiredFieldsError(FormDataOf(f)).None?
    ensures var r := AfterSave(WithoutId(orders, id), f, newId, now);
      && |r| == |orders| - CountIf(orders, (o: Order) => o.id == id) + 1
      && r[..|r| - 1] == WithoutId(orders, id)
      && (forall j :: 0 <= j < |r| - 1 ==> r[j].id != id)
      && r[|r| - 1] == NewOrder(FormDataOf(f), newId, now)
  {
    WithoutIdRemovesExactly(orders, id);
    var rest := WithoutId(orders, id);
    var r := AfterSave(rest, f, newId, now);
    assert r == rest + [NewOrder(FormDataOf(f), newId, now)];
    forall j | 0 <= j < |r| - 1 ensures r[j].id != id {
      assert r[j] == rest[j] && rest[j] in rest;
    }
  }

  /**
   * Distinct ids stay distinct: saving under an id no order has, changing a
   * status, and deleting by id. (A wholesale load keeps them when the
   * snapshot's are distinct; see `Reconcile`.)
   */
  lemma OperationsKeepUniqueIds(orders: seq<Order>, f: FormFields, id: string, other: string, now: int)
    requires UniqueIds(orders)
    ensures FindById(orders, id).None? ==> UniqueIds(AfterSave(orders, f, id, now))
    ensures UniqueIds(AfterStatusChange(orders, other, now))
    ensures UniqueIds(WithoutId(orders, other))
  {
    KeepUniqueIds(orders, (o: Order) => o.id != other);
    StatusChangeKeepsIds(orders, other, now);
    if FindById(orders, id).None? && RequiredFieldsError(FormDataOf(f)).None? {
      var r := AfterSave(orders, f, id, now);
      forall i, j | 0 <= i < j < |r| ensures r[i].id != r[j].id {
        if j == |orders| {
          assert r[i] == orders[i];
        } else {
          assert r[i] == orders[i] && r[j] == orders[j];
        }
      }
    }
  }

  class OrderManager {
    var orders: seq<Order>
    /** The stored sync time, as text; `None` when nothing is stored. */
    var lastSync: Option<string>

    /** Starts from the saved list, or an empty one when nothing was saved, and the stored sync time. */
    constructor(saved: Option<seq<Order>>, savedLastSync: Option<string>)
      ensures orders == (if saved.Some? then saved.value else [])
      ensures lastSync == savedLastSync
    {
      orders := if saved.Some? then saved.value else [];
      lastSync := savedLastSync;
    }

    /** Reads and checks the form, and appends the new order when the checks pass; the refusal is returned. */
    method SaveOrder(f: FormFields, id: string, now: int) returns (refused: Option<FormError>)
      modifies this
      ensures refused == RequiredFieldsError(FormDataOf(f))
      ensures orders == AfterSave(old(orders), f, id, now)
      ensures lastSync == old(lastSync)
    {
      var data := GetFormData(f);
      refused := RequiredFieldsError(data);
      if refused.None? {
        orders := orders + [NewOrder(data, id, now)];
      }
    }

    method ChangeOrderStatus(id: string, now: int)
      modifies this
      ensures orders == AfterStatusChange(old(orders), id, now)
      ensures lastSync == old(lastSync)
    {
      var found := FindById(orders, id);
      if found.Some? {
        var k := found.value;
        orders := orders[k := orders[k].(status := NextStatus(orders[k].status), updatedAt := Some(now))];
      }
    }

    /** Removes every order with this id, unless the user was asked and declined. */
    method DeleteOrder(id: string, showConfirm: bool, confirmed: bool)
      modifies this
      ensures if showConfirm && !confirmed then orders == old(orders) else orders == WithoutId(old(orders), id)
      ensures lastSync == old(lastSync)
    {
      if showConfirm && !confirmed {
        return;
      }
      orders := WithoutId(orders, id);
    }

    /** Returns the order to load into the form and removes it from the list, without confirmation. */
    method EditOrder(id: string) returns (editing: Option<Order>)
      modifies this
      ensures editing.None? <==> FindById(old(orders), id).None?
      ensures editing.Some? ==> editing.value == old(orders)[FindById(old(orders), id).value]
      ensures orders == if editing.None? then old(orders) else WithoutId(old(orders), id)
      ensures lastSync == old(lastSync)
    {
      var found := FindById(orders, id);
      if found.None? {
        return None;
      }
      editing := Some(orders[found.value]);
      DeleteOrder(id, false, false);
    }

    /** A successful upload records the time text it uploaded as the local sync time. */
    method MarkSynced(nowText: string)
      modifies this
      ensures lastSync == Some(nowText) && orders == old(orders)
    {
      lastSync := Some(nowText);
    }

    /**
     * Loads a snapshot of the remote file: replaces the list wholesale or
     * merges, and records the sync time. `now` is the clock in milliseconds,
     * `nowText` the same instant as text, and `parse` reads a text as a date.
     */
    method LoadFromGist(s: Snapshot, now: int, nowText: string, parse: string -> Option<int>)
      modifies this
      ensures orders == Reconcile(old(orders), s, old(lastSync), now, nowText, parse).orders
      ensures lastSync == Some(Reconcile(old(orders), s, old(lastSync), now, nowText, parse).lastSync)
    {
      var remote := if s.orders.Some? then s.orders.value else [];
      var remoteLastSync := s.lastSync;
      if lastSync.None? || lastSync.value == ""
         || (remoteLastSync.Some? && remoteLastSync.value != "" && Later(parse(remoteLastSync.value), parse(lastSync.value))) {
        orders := remote;
        lastSync := if remoteLastSync.Some? && remoteLastSync.value != "" then remoteLastSync else Some(nowText);
        return;
      }
      orders := MergeOrders(orders, remote, now);
      lastSync := Some(nowText);
    }
  }
}
