/**
 * Orders of the browser variant, which keeps its list in local storage: the
 * record, its four-state status cycle, and lookup and removal by id.
 * Timestamps are milliseconds; `None` stands for a missing or unparseable
 * timestamp, which every date comparison treats as false.
 */
module LocalOrders {
  import opened Common
  import opened OrderForm

  datatype Order = Order(
    id: string, customerName: string, customerPhone: string, deliveryDate: string,
    deliveryTime: string, items: seq<Item>, notes: string, totalAmount: string,
    status: string, createdAt: Option<int>, updatedAt: Option<int>)

  /** The browser variant's workflow, in cycle order. */
  const Statuses: seq<string> := ["pendiente", "en_proceso", "completado", "cancelado"]

  /** Array.prototype.indexOf: the first position of `x`, or -1. */
  function IndexOf(s: seq<string>, x: string): (k: int)
    ensures -1 <= k < |s|
    ensures k == -1 <==> x !in s
    ensures k >= 0 ==> s[k] == x && forall j :: 0 <= j < k ==> s[j] != x
  {
    if s == [] then -1
    else if s[0] == x then 0
    else
      var k := IndexOf(s[1..], x);
      if k == -1 then -1 else k + 1
  }

  /** The status after one press of the status button: the next in the cycle; an unknown status becomes the first. */
  function NextStatus(status: string): (next: string)
    ensures next in Statuses
    ensures status !in Statuses ==> next == Statuses[0]
  {
    Statuses[(IndexOf(Statuses, status) + 1) % |Statuses|]
  }

  /** The workflow statuses are distinct, so each is found at its own position. */
  lemma IndexOfStatus(i: nat)
    requires i < |Statuses|
    ensures IndexOf(Statuses, Statuses[i]) == i
  {
    var k := IndexOf(Statuses, Statuses[i]);
    assert Statuses[k] == Statuses[i];
  }

  /**
   * Each workflow status moves one step along the cycle: pendiente to
   * en_proceso, en_proceso to completado, completado to cancelado, and
   * cancelado back to pendiente.
   */
  lemma NextStatusFollows(i: nat)
    requires i < |Statuses|
    ensures NextStatus(Statuses[i]) == Statuses[if i + 1 < |Statuses| then i + 1 else 0]
  {
    IndexOfStatus(i);
    if i == 0 {
      assert (i + 1) % |Statuses| == 1;
    } else if i == 1 {
      assert (i + 1) % |Statuses| == 2;
    } else if i == 2 {
      assert (i + 1) % |Statuses| == 3;
    } else {
      assert (i + 1) % |Statuses| == 0;
    }
  }

  /** Four presses bring a workflow status back to itself. */
  lemma NextStatusCycle(status: string)
    requires status in Statuses
    ensures NextStatus(NextStatus(NextStatus(NextStatus(status)))) == status
  {
    var k :| 0 <= k < |Statuses| && Statuses[k] == status;
    var k1 := if k + 1 < 4 then k + 1 else 0;
    var k2 := if k1 + 1 < 4 then k1 + 1 else 0;
    var k3 := if k2 + 1 < 4 then k2 + 1 else 0;
    NextStatusFollows(k);
    assert NextStatus(status) == Statuses[k1];
    NextStatusFollows(k1);
    assert NextStatus(Statuses[k1]) == Statuses[k2];
    NextStatusFollows(k2);
    assert NextStatus(Statuses[k2]) == Statuses[k3];
    NextStatusFollows(k3);
    assert NextStatus(Statuses[k3]) == Statuses[k];
  }

  /** Array.prototype.find by id: the position of the first order with this id. */
  function FindById(orders: seq<Order>, id: string): (r: Option<nat>)
    ensures r.None? <==> forall j :: 0 <= j < |orders| ==> orders[j].id != id
    ensures r.Some? ==>
      && r.value < |orders| && orders[r.value].id == id
      && forall j :: 0 <= j < r.value ==> orders[j].id != id
  {
    if orders == [] then None
    else if orders[0].id == id then Some(0)
    else
      match FindById(orders[1..], id)
      case None => None
      case Some(k) => Some(k + 1)
  }

  /** The orders whose id is not `id`, in their original order. */
  function WithoutId(orders: seq<Order>, id: string): seq<Order>
  {
    Keep(orders, (o: Order) => o.id != id)
  }

  /** Deleting by id removes every order with that id and keeps every other one, as many times as it occurred. */
  lemma WithoutIdRemovesExactly(orders: seq<Order>, id: string)
    ensures forall o: Order :: o in WithoutId(orders, id) ==> o.id != id
    ensures forall o: Order :: o.id != id ==> multiset(WithoutId(orders, id))[o] == multiset(orders)[o]
    ensures |WithoutId(orders, id)| == |orders| - CountIf(orders, (o: Order) => o.id == id)
  {
    var p := (o: Order) => o.id != id;
    var q := (o: Order) => o.id == id;
    CountSplit(orders, p, q);
  }

  /** Deleting distributes over concatenation, so the kept orders stay in their relative order. */
  lemma WithoutIdKeepsOrder(a: seq<Order>, b: seq<Order>, id: string)
    ensures WithoutId(a + b, id) == WithoutId(a, id) + WithoutId(b, id)
  {
    KeepAppend(a, b, (o: Order) => o.id != id);
  }

  lemma {:induction false} CountSplit(s: seq<Order>, p: Order -> bool, q: Order -> bool)
    requires forall o :: q(o) == !p(o)
    ensures |Keep(s, p)| + CountIf(s, q) == |s|
  {
    if s != [] {
      CountSplit(s[1..], p, q);
    }
  }
}
